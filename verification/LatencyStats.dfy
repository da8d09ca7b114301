/**
 The latency collector's percentiles and histogram, over exact reals in milliseconds.
 */
module LatencyStats {
  import opened Common
  import opened Intervals

  // ---------- Sorting ----------

  function Insert(x: real, s: seq<real>): seq<real>
  {
    if s == [] || s[|s| - 1] <= x then s + [x] else Insert(x, s[..|s| - 1]) + [s[|s| - 1]]
  }

  lemma {:induction false} InsertSorts(x: real, s: seq<real>)
    requires NonDecreasing(s)
    ensures NonDecreasing(Insert(x, s)) && |Insert(x, s)| == |s| + 1
    ensures Insert(x, s)[|s|] == if s == [] || s[|s| - 1] <= x then x else s[|s| - 1]
  {
    if s == [] || s[|s| - 1] <= x {
    } else {
      InsertSorts(x, s[..|s| - 1]);
      SortedSnoc(Insert(x, s[..|s| - 1]), s[|s| - 1]);
    }
  }

  lemma SortedSnoc(s: seq<real>, x: real)
    requires NonDecreasing(s) && s != [] && s[|s| - 1] <= x
    ensures NonDecreasing(s + [x])
  {
  }

  lemma {:induction false} InsertAdds(x: real, s: seq<real>)
    ensures multiset(Insert(x, s)) == multiset(s) + multiset{x}
  {
    if s == [] || s[|s| - 1] <= x {
    } else {
      InsertAdds(x, s[..|s| - 1]);
      assert s == s[..|s| - 1] + [s[|s| - 1]];
    }
  }

  /** The sorted copy; any sorting algorithm gives this sequence. */
  function Sort(s: seq<real>): seq<real>
  {
    if s == [] then [] else Insert(s[|s| - 1], Sort(s[..|s| - 1]))
  }

  lemma {:induction false} SortSorts(s: seq<real>)
    ensures NonDecreasing(Sort(s))
  {
    if s == [] {
    } else {
      SortSorts(s[..|s| - 1]);
      InsertSorts(s[|s| - 1], Sort(s[..|s| - 1]));
    }
  }

  lemma {:induction false} SortKeeps(s: seq<real>)
    ensures multiset(Sort(s)) == multiset(s)
  {
    if s == [] {
    } else {
      var init, last := s[..|s| - 1], s[|s| - 1];
      SortKeeps(init);
      InsertAdds(last, Sort(init));
      assert s == init + [last];
    }
  }

  lemma LastIsMaximum(s: seq<real>, x: real)
    requires NonDecreasing(s) && x in multiset(s)
    ensures s != [] && x <= s[|s| - 1]
  {
    assert x in s;
  }

  lemma InitMultiset(s: seq<real>)
    requires s != []
    ensures multiset(s[..|s| - 1]) == multiset(s) - multiset{s[|s| - 1]}
    ensures s[|s| - 1] in multiset(s)
  {
    assert s == s[..|s| - 1] + [s[|s| - 1]];
  }

  lemma SameLength(a: seq<real>, b: seq<real>)
    requires multiset(a) == multiset(b)
    ensures |a| == |b|
  {
    assert |multiset(a)| == |a| && |multiset(b)| == |b|;
  }

  lemma SameLast(a: seq<real>, b: seq<real>)
    requires NonDecreasing(a) && NonDecreasing(b) && multiset(a) == multiset(b)
    requires a != [] && b != []
    ensures a[|a| - 1] == b[|b| - 1]
    ensures multiset(a[..|a| - 1]) == multiset(b[..|b| - 1])
  {
    InitMultiset(a);
    InitMultiset(b);
    LastIsMaximum(a, b[|b| - 1]);
    LastIsMaximum(b, a[|a| - 1]);
  }

  lemma {:induction false} SortedUnique(a: seq<real>, b: seq<real>)
    requires NonDecreasing(a) && NonDecreasing(b) && multiset(a) == multiset(b)
    ensures a == b
    decreases |a|
  {
    SameLength(a, b);
    if a == [] {
    } else {
      var m, n := |a| - 1, |b| - 1;
      SameLast(a, b);
      SortedUnique(a[..m], b[..n]);
      assert a == a[..m] + [a[m]] && b == b[..n] + [b[n]];
    }
  }

  // ---------- Percentiles ----------

  function Ceil(x: real): int
  {
    if x.Floor as real == x then x.Floor else x.Floor + 1
  }

  /** The value a fraction `w` of the way from `a` to `b`. */
  function Blend(a: real, b: real, w: real): real
  {
    a * (1.0 - w) + b * w
  }

  /** The value at a fractional index: linear between its two neighbours. */
  function At(s: seq<real>, index: real): real
    requires s != [] && 0.0 <= index <= (|s| - 1) as real
  {
    var lower, upper := index.Floor, Ceil(index);
    if lower == upper then s[lower] else Blend(s[lower], s[upper], index - lower as real)
  }

  function IndexOf(n: nat, percentile: real): (index: real)
    requires n > 0 && 0.0 <= percentile <= 100.0
    ensures 0.0 <= index <= (n - 1) as real
  {
    IndexBounds(percentile, (n - 1) as real);
    (percentile / 100.0) * (n - 1) as real
  }

  lemma IndexBounds(p: real, m: real)
    requires 0.0 <= p <= 100.0 && m >= 0.0
    ensures 0.0 <= (p / 100.0) * m <= m
  {
    NonNegativeProduct(p, m);
    NonNegativeProduct(100.0 - p, m);
  }

  lemma NonNegativeProduct(a: real, b: real)
    requires a >= 0.0 && b >= 0.0
    ensures a * b >= 0.0
  {
  }

  function Percentile(s: seq<real>, percentile: real): real
    requires 0.0 <= percentile <= 100.0
  {
    if s == [] then 0.0 else At(s, IndexOf(|s|, percentile))
  }

  /** A blend lies between its ends. */
  lemma BlendBounds(a: real, b: real, w: real)
    requires a <= b && 0.0 <= w <= 1.0
    ensures a <= Blend(a, b, w) <= b
  {
    BlendMonotone(a, b, 0.0, w);
    BlendMonotone(a, b, w, 1.0);
  }

  /** A blend rises with its weight. */
  lemma BlendMonotone(a: real, b: real, w: real, v: real)
    requires a <= b && w <= v
    ensures Blend(a, b, w) <= Blend(a, b, v)
  {
    NonNegativeProduct(b - a, v - w);
    assert (b - a) * (v - w) == Blend(a, b, v) - Blend(a, b, w);
  }

  lemma AtBounds(s: seq<real>, x: real)
    requires s != [] && NonDecreasing(s) && 0.0 <= x <= (|s| - 1) as real
    ensures s[x.Floor] <= At(s, x)
    ensures x.Floor + 1 < |s| ==> At(s, x) <= s[x.Floor + 1]
    ensures At(s, x) <= s[|s| - 1]
  {
    var lower := x.Floor;
    if lower as real != x {
      BlendBounds(s[lower], s[lower + 1], x - lower as real);
    }
  }

  /** At an integral index, the blend with any right neighbour is the value itself. */
  lemma AtIsBlend(s: seq<real>, x: real)
    requires s != [] && 0.0 <= x && x.Floor + 1 < |s|
    ensures At(s, x) == Blend(s[x.Floor], s[x.Floor + 1], x - x.Floor as real)
  {
  }

  /** Interpolation is monotone across segment boundaries. */
  lemma AtMonotone(s: seq<real>, x: real, y: real)
    requires s != [] && NonDecreasing(s) && 0.0 <= x <= y <= (|s| - 1) as real
    ensures At(s, x) <= At(s, y)
  {
    AtBounds(s, x);
    AtBounds(s, y);
    var lower := x.Floor;
    if lower == y.Floor {
      if lower + 1 < |s| {
        AtIsBlend(s, x);
        AtIsBlend(s, y);
        BlendMonotone(s[lower], s[lower + 1], x - lower as real, y - lower as real);
      }
    } else {
      assert s[lower + 1] <= s[y.Floor];
    }
  }

  lemma IndexMonotone(n: nat, p: real, q: real)
    requires n > 0 && 0.0 <= p <= q <= 100.0
    ensures IndexOf(n, p) <= IndexOf(n, q)
  {
    NonNegativeProduct(q - p, (n - 1) as real);
  }

  /** A larger percentile never has a smaller value, and all lie between the minimum and maximum. */
  lemma PercentileMonotone(s: seq<real>, p: real, q: real)
    requires NonDecreasing(s) && 0.0 <= p <= q <= 100.0
    ensures Percentile(s, p) <= Percentile(s, q)
    ensures s != [] ==> s[0] <= Percentile(s, p) && Percentile(s, q) <= s[|s| - 1]
  {
    if s != [] {
      IndexMonotone(|s|, p, q);
      AtMonotone(s, IndexOf(|s|, p), IndexOf(|s|, q));
      AtBounds(s, IndexOf(|s|, p));
      AtBounds(s, IndexOf(|s|, q));
    }
  }

  // ---------- The value of a percentile ----------

  lemma ScaledIndex(n: nat, p: real)
    requires n > 0 && 0.0 <= p <= 100.0
    ensures 100.0 * IndexOf(n, p) == (n - 1) as real * p
  {
    assert 100.0 * ((p / 100.0) * (n - 1) as real) == (100.0 * (p / 100.0)) * (n - 1) as real;
  }

  lemma AtBetween(s: seq<real>, x: real, k: nat)
    requires k + 1 < |s| && k as real <= x <= (k + 1) as real
    ensures At(s, x) == s[k] * ((k + 1) as real - x) + s[k + 1] * (x - k as real)
  {
    if x == (k + 1) as real {
      assert x.Floor == k + 1;
    } else {
      assert x.Floor == k;
      AtIsBlend(s, x);
    }
  }

  lemma Hundredfold(a: real, b: real, u: real, v: real, l: real, r: real)
    requires 100.0 * u == l && 100.0 * v == r
    ensures 100.0 * (a * u + b * v) == a * l + b * r
  {
    assert 100.0 * (a * u) == a * (100.0 * u) && 100.0 * (b * v) == b * (100.0 * v);
  }

  /**
   The value of a percentile: between positions `k` and `k + 1` of the sorted sample, for `n` values at
   `(n - 1) * p / 100`, it is the weighted mean of the two, written here without division.
   */
  lemma PercentileValue(s: seq<real>, p: real, k: nat)
    requires 0.0 <= p <= 100.0 && k + 1 < |s|
    requires 100.0 * k as real <= (|s| - 1) as real * p <= 100.0 * (k + 1) as real
    ensures var x := (|s| - 1) as real * p;
            100.0 * Percentile(s, p) == s[k] * (100.0 * (k + 1) as real - x) + s[k + 1] * (x - 100.0 * k as real)
  {
    var i, x := IndexOf(|s|, p), (|s| - 1) as real * p;
    ScaledIndex(|s|, p);
    AtBetween(s, i, k);
    Hundredfold(s[k], s[k + 1], (k + 1) as real - i, i - k as real, 100.0 * (k + 1) as real - x, x - 100.0 * k as real);
  }

  /** `v` is the interpolated percentile `p` of the sorted sample `s`. */
  ghost predicate Interpolates(s: seq<real>, p: real, v: real)
  {
    && (s == [] ==> v == 0.0)
    && (|s| == 1 ==> v == s[0])
    && forall k :: 0 <= k < |s| - 1 && Between(|s|, p, k) ==> Weighs(s, p, k, v)
  }

  predicate Between(n: nat, p: real, k: nat)
  {
    100.0 * k as real <= (n - 1) as real * p <= 100.0 * (k + 1) as real
  }

  predicate Weighs(s: seq<real>, p: real, k: nat, v: real)
    requires k + 1 < |s|
  {
    var x := (|s| - 1) as real * p;
    100.0 * v == s[k] * (100.0 * (k + 1) as real - x) + s[k + 1] * (x - 100.0 * k as real)
  }

  lemma PercentileInterpolates(s: seq<real>, p: real)
    requires 0.0 <= p <= 100.0
    ensures Interpolates(s, p, Percentile(s, p))
  {
    forall k | 0 <= k < |s| - 1 && Between(|s|, p, k)
      ensures Weighs(s, p, k, Percentile(s, p))
    {
      PercentileValue(s, p, k);
    }
  }

  /** Some pair of neighbours always surrounds the position, so that determines the value. */
  lemma InterpolationUnique(s: seq<real>, p: real, v: real)
    requires 0.0 <= p <= 100.0 && Interpolates(s, p, v)
    ensures v == Percentile(s, p)
  {
    if |s| >= 2 {
      var k := Neighbour(|s|, p);
      assert Weighs(s, p, k, v);
      PercentileInterpolates(s, p);
      assert Weighs(s, p, k, Percentile(s, p));
    }
  }

  lemma Neighbour(n: nat, p: real) returns (k: nat)
    requires n >= 2 && 0.0 <= p <= 100.0
    ensures k < n - 1 && Between(n, p, k)
  {
    ScaledIndex(n, p);
    var i := IndexOf(n, p);
    k := if i.Floor == n - 1 then n - 2 else i.Floor;
  }

  /** Percentile 0 is the minimum of the sorted sample and percentile 100 its maximum. */
  lemma PercentileEnds(s: seq<real>)
    requires s != []
    ensures Percentile(s, 0.0) == s[0] && Percentile(s, 100.0) == s[|s| - 1]
  {
    if |s| >= 2 {
      PercentileValue(s, 0.0, 0);
      PercentileValue(s, 100.0, |s| - 2);
    }
  }

  datatype Percentiles = Percentiles(p50: real, p75: real, p90: real, p95: real, p99: real,
                                     p99_5: real, p99_9: real, p99_99: real)

  function CalculatePercentiles(latencies: seq<real>): Percentiles
  {
    var s := Sort(latencies);
    Percentiles(Percentile(s, 50.0), Percentile(s, 75.0), Percentile(s, 90.0), Percentile(s, 95.0),
                Percentile(s, 99.0), Percentile(s, 99.5), Percentile(s, 99.9), Percentile(s, 99.99))
  }

  /** Each of the eight fields interpolates its own percentile of the sorted sample. */
  lemma FieldsInterpolate(latencies: seq<real>, s: seq<real>)
    requires NonDecreasing(s) && multiset(s) == multiset(latencies)
    ensures var r := CalculatePercentiles(latencies);
            && Interpolates(s, 50.0, r.p50) && Interpolates(s, 75.0, r.p75)
            && Interpolates(s, 90.0, r.p90) && Interpolates(s, 95.0, r.p95)
            && Interpolates(s, 99.0, r.p99) && Interpolates(s, 99.5, r.p99_5)
            && Interpolates(s, 99.9, r.p99_9) && Interpolates(s, 99.99, r.p99_99)
  {
    SortSorts(latencies);
    SortKeeps(latencies);
    SortedUnique(s, Sort(latencies));
    PercentileInterpolates(s, 50.0);
    PercentileInterpolates(s, 75.0);
    PercentileInterpolates(s, 90.0);
    PercentileInterpolates(s, 95.0);
    PercentileInterpolates(s, 99.0);
    PercentileInterpolates(s, 99.5);
    PercentileInterpolates(s, 99.9);
    PercentileInterpolates(s, 99.99);
  }

  /** For every sample the reported percentiles are ordered and lie within the sample's range. */
  lemma PercentilesOrdered(latencies: seq<real>, lo: real, hi: real)
    requires latencies != [] && forall x :: x in latencies ==> lo <= x <= hi
    ensures var r := CalculatePercentiles(latencies);
            lo <= r.p50 <= r.p75 <= r.p90 <= r.p95 <= r.p99 <= r.p99_5 <= r.p99_9 <= r.p99_99 <= hi
  {
    var s := Sort(latencies);
    SortRange(latencies, lo, hi);
    PercentileMonotone(s, 50.0, 75.0);
    PercentileMonotone(s, 75.0, 90.0);
    PercentileMonotone(s, 90.0, 95.0);
    PercentileMonotone(s, 95.0, 99.0);
    PercentileMonotone(s, 99.0, 99.5);
    PercentileMonotone(s, 99.5, 99.9);
    PercentileMonotone(s, 99.9, 99.99);
  }

  lemma SortRange(latencies: seq<real>, lo: real, hi: real)
    requires latencies != [] && forall x :: x in latencies ==> lo <= x <= hi
    ensures var s := Sort(latencies); s != [] && NonDecreasing(s) && lo <= s[0] && s[|s| - 1] <= hi
  {
    SortSorts(latencies);
    SortKeeps(latencies);
    var s := Sort(latencies);
    assert |multiset(s)| == |multiset(latencies)|;
    assert s[0] in multiset(s) && s[|s| - 1] in multiset(s);
    assert s[0] in latencies && s[|s| - 1] in latencies;
  }

  /** The order in which latencies were recorded is irrelevant. */
  lemma PercentilesOrderFree(a: seq<real>, b: seq<real>)
    requires multiset(a) == multiset(b)
    ensures CalculatePercentiles(a) == CalculatePercentiles(b)
  {
    SortSorts(a);
    SortSorts(b);
    SortKeeps(a);
    SortKeeps(b);
    SortedUnique(Sort(a), Sort(b));
  }

  // ---------- The histogram ----------

  datatype Bucket = Bucket(start: real, end: real, count: nat, percentage: real)

  const BUCKET_COUNT: nat := 20

  function Minimum(s: seq<real>): (m: real)
    requires s != []
    ensures m in s && forall x :: x in s ==> m <= x
  {
    var n := |s| - 1;
    if n == 0 then s[0] else
      assert s == s[..n] + [s[n]];
      var m := Minimum(s[..n]);
      if s[n] < m then s[n] else m
  }

  function Maximum(s: seq<real>): (m: real)
    requires s != []
    ensures m in s && forall x :: x in s ==> x <= m
  {
    var n := |s| - 1;
    if n == 0 then s[0] else
      assert s == s[..n] + [s[n]];
      var m := Maximum(s[..n]);
      if s[n] > m then s[n] else m
  }

  /** Bound `i` of the histogram; the last one is moved up so that it includes the maximum. */
  function Bound(lo: real, hi: real, i: nat): real
  {
    if i == BUCKET_COUNT then hi + 0.001 else lo + i as real * ((hi - lo) / BUCKET_COUNT as real)
  }

  function Bounds(lo: real, hi: real): (b: seq<real>)
    ensures |b| == BUCKET_COUNT + 1
  {
    seq(BUCKET_COUNT + 1, i requires 0 <= i => Bound(lo, hi, i))
  }

  lemma BoundsAt(lo: real, hi: real, i: nat, width: real)
    requires i < BUCKET_COUNT && width == (hi - lo) / BUCKET_COUNT as real
    ensures Bounds(lo, hi)[i] == lo + i as real * width
    ensures Bounds(lo, hi)[i + 1] == if i == BUCKET_COUNT - 1 then hi + 0.001 else lo + (i + 1) as real * width
  {
  }

  lemma BoundsAscend(lo: real, hi: real)
    requires lo <= hi
    ensures NonDecreasing(Bounds(lo, hi))
    ensures Bounds(lo, hi)[0] == lo && Bounds(lo, hi)[BUCKET_COUNT] > hi
  {
    var w := (hi - lo) / BUCKET_COUNT as real;
    forall i, j | 0 <= i <= j <= BUCKET_COUNT
      ensures Bound(lo, hi, i) <= Bound(lo, hi, j)
    {
      Widths(w, i as real, j as real);
      Widths(w, i as real, 20.0);
    }
  }

  lemma Widths(w: real, i: real, j: real)
    requires w >= 0.0 && i <= j
    ensures i * w <= j * w
  {
    assert (j - i) * w >= 0.0;
  }

  function CountOf(b: Bucket): nat
  {
    b.count
  }

  function MakeBucket(latencies: seq<real>, start: real, end: real): (b: Bucket)
    requires latencies != []
    ensures 0.0 <= b.percentage <= 100.0
  {
    var count := CountIn(latencies, start, end);
    Share(count, |latencies|);
    Bucket(start, end, count, (count as real / |latencies| as real) * 100.0)
  }

  /** The buckets between consecutive bounds. */
  ghost predicate Buckets(latencies: seq<real>, bounds: seq<real>, buckets: seq<Bucket>)
    requires latencies != [] && |buckets| < |bounds|
  {
    forall j :: 0 <= j < |buckets| ==> buckets[j] == MakeBucket(latencies, bounds[j], bounds[j + 1])
  }

  /**
   The histogram: twenty consecutive buckets whose bounds run from the minimum to just above the
   maximum, each with its exact count.
   */
  method CalculateDistribution(latencies: seq<real>) returns (buckets: seq<Bucket>, totalCount: nat)
    ensures totalCount == |latencies|
    ensures latencies == [] ==> buckets == []
    ensures latencies != [] ==>
              && |buckets| == BUCKET_COUNT
              && Buckets(latencies, Bounds(Minimum(latencies), Maximum(latencies)), buckets)
  {
    if latencies == [] {
      return [], 0;
    }
    var lo, hi := Minimum(latencies), Maximum(latencies);
    var width := (hi - lo) / BUCKET_COUNT as real;
    ghost var bounds := Bounds(lo, hi);
    totalCount := |latencies|;
    buckets := [];
    for i := 0 to BUCKET_COUNT
      invariant |buckets| == i
      invariant Buckets(latencies, bounds, buckets)
    {
      var start := lo + i as real * width;
      var end := if i == BUCKET_COUNT - 1 then hi + 0.001 else lo + (i + 1) as real * width;
      BoundsAt(lo, hi, i, width);
      buckets := buckets + [MakeBucket(latencies, start, end)];
    }
  }

  lemma {:induction false} CountSumIsTotal(latencies: seq<real>, bounds: seq<real>, buckets: seq<Bucket>)
    requires latencies != [] && |buckets| < |bounds| && Buckets(latencies, bounds, buckets)
    ensures SumOf(buckets, CountOf) == Total(latencies, bounds, |buckets|)
  {
    if buckets == [] {
    } else {
      CountSumIsTotal(latencies, bounds, buckets[..|buckets| - 1]);
    }
  }

  /**
   Every latency falls in exactly one bucket and the counts sum to the sample size, also when all
   latencies are equal and the bucket width is zero.
   */
  lemma HistogramPartitions(latencies: seq<real>, buckets: seq<Bucket>)
    requires latencies != [] && |buckets| == BUCKET_COUNT
    requires Buckets(latencies, Bounds(Minimum(latencies), Maximum(latencies)), buckets)
    ensures SumOf(buckets, CountOf) == |latencies|
    ensures forall x :: x in latencies ==> InOneBucket(x, buckets)
  {
    var bounds := Bounds(Minimum(latencies), Maximum(latencies));
    BoundsAscend(Minimum(latencies), Maximum(latencies));
    CountSumIsTotal(latencies, bounds, buckets);
    WholeRange(latencies, bounds);
    forall x | x in latencies
      ensures InOneBucket(x, buckets)
    {
      BucketOf(latencies, bounds, buckets, x);
    }
  }

  /** The bound `x` is `i` twentieths of the way from `lo` to `hi`. */
  predicate Twentieths(x: real, lo: real, hi: real, i: nat)
  {
    20.0 * (x - lo) == i as real * (hi - lo)
  }

  /**
   The buckets are equally wide from the minimum on, each ends where the next one starts, and the last one
   ends just above the maximum.
   */
  lemma HistogramShape(latencies: seq<real>, buckets: seq<Bucket>, lo: real, hi: real, i: nat)
    requires latencies != [] && |buckets| == BUCKET_COUNT && i < BUCKET_COUNT
    requires Buckets(latencies, Bounds(Minimum(latencies), Maximum(latencies)), buckets)
    requires lo in latencies && hi in latencies && forall x :: x in latencies ==> lo <= x <= hi
    ensures Twentieths(buckets[i].start, lo, hi, i)
    ensures i < 19 ==> buckets[i].end == buckets[i + 1].start
    ensures i == 19 ==> buckets[i].end == hi + 0.001
  {
    ExtremesUnique(latencies, lo, hi);
    var bounds := Bounds(lo, hi);
    BucketRange(latencies, bounds, buckets, i);
    if i < 19 {
      BucketRange(latencies, bounds, buckets, i + 1);
    }
    EvenBounds(lo, hi, i);
  }

  lemma ExtremesUnique(latencies: seq<real>, lo: real, hi: real)
    requires latencies != []
    requires lo in latencies && hi in latencies && forall x :: x in latencies ==> lo <= x <= hi
    ensures lo == Minimum(latencies) && hi == Maximum(latencies)
  {
  }

  /** Each bucket's percentage is its share of the sample. */
  lemma HistogramShares(latencies: seq<real>, buckets: seq<Bucket>, i: nat)
    requires latencies != [] && |buckets| == BUCKET_COUNT && i < BUCKET_COUNT
    requires Buckets(latencies, Bounds(Minimum(latencies), Maximum(latencies)), buckets)
    ensures buckets[i].percentage * |latencies| as real == 100.0 * buckets[i].count as real
  {
    BucketShare(latencies, Bounds(Minimum(latencies), Maximum(latencies)), buckets, i);
  }

  lemma EvenBounds(lo: real, hi: real, i: nat)
    requires i < BUCKET_COUNT
    ensures Twentieths(Bounds(lo, hi)[i], lo, hi, i)
    ensures Bounds(lo, hi)[BUCKET_COUNT] == hi + 0.001
  {
    var width := (hi - lo) / BUCKET_COUNT as real;
    BoundsAt(lo, hi, i, width);
    TwentyWidths(i as real, width, hi - lo);
  }

  lemma TwentyWidths(i: real, width: real, range: real)
    requires width == range / 20.0
    ensures 20.0 * (i * width) == i * range
  {
    assert 20.0 * width == range;
    assert 20.0 * (i * width) == i * (20.0 * width);
  }

  lemma BucketShare(latencies: seq<real>, bounds: seq<real>, buckets: seq<Bucket>, i: nat)
    requires latencies != [] && i < |buckets| < |bounds| && Buckets(latencies, bounds, buckets)
    ensures buckets[i].percentage * |latencies| as real == 100.0 * buckets[i].count as real
  {
    assert buckets[i] == MakeBucket(latencies, bounds[i], bounds[i + 1]);
    SharePercent(buckets[i].count, |latencies|);
  }

  lemma SharePercent(part: nat, total: nat)
    requires total > 0
    ensures (part as real / total as real) * 100.0 * total as real == 100.0 * part as real
  {
    var q := part as real / total as real;
    assert q * total as real == part as real;
  }

  lemma WholeRange(latencies: seq<real>, bounds: seq<real>)
    requires |bounds| == BUCKET_COUNT + 1 && NonDecreasing(bounds)
    requires forall x :: x in latencies ==> bounds[0] <= x < bounds[BUCKET_COUNT]
    ensures Total(latencies, bounds, BUCKET_COUNT) == |latencies|
  {
    Telescope(latencies, bounds, BUCKET_COUNT);
    assert forall i :: 0 <= i < |latencies| ==> latencies[i] in latencies;
    AllBelow(latencies, bounds[BUCKET_COUNT]);
    NoneBelow(latencies, bounds[0]);
  }

  lemma BucketOf(latencies: seq<real>, bounds: seq<real>, buckets: seq<Bucket>, x: real)
    requires latencies != [] && |buckets| == BUCKET_COUNT && |bounds| == BUCKET_COUNT + 1
    requires NonDecreasing(bounds) && Buckets(latencies, bounds, buckets)
    requires bounds[0] <= x < bounds[BUCKET_COUNT]
    ensures InOneBucket(x, buckets)
  {
    var i := OneInterval(x, bounds, BUCKET_COUNT);
    forall j | 0 <= j < BUCKET_COUNT
      ensures InBucket(x, buckets[j]) <==> j == i
    {
      BucketRange(latencies, bounds, buckets, j);
    }
  }

  lemma BucketRange(latencies: seq<real>, bounds: seq<real>, buckets: seq<Bucket>, j: nat)
    requires latencies != [] && j < |buckets| < |bounds| && Buckets(latencies, bounds, buckets)
    ensures buckets[j].start == bounds[j] && buckets[j].end == bounds[j + 1]
    ensures buckets[j].count == CountIn(latencies, bounds[j], bounds[j + 1])
  {
    assert buckets[j] == MakeBucket(latencies, bounds[j], bounds[j + 1]);
  }

  predicate InBucket(x: real, b: Bucket)
  {
    b.start <= x < b.end
  }

  ghost predicate InOneBucket(x: real, buckets: seq<Bucket>)
  {
    exists i :: 0 <= i < |buckets| && InBucket(x, buckets[i])
                && forall j :: 0 <= j < |buckets| && InBucket(x, buckets[j]) ==> j == i
  }

  lemma Share(part: nat, total: nat)
    requires part <= total && total > 0
    ensures 0.0 <= (part as real / total as real) * 100.0 <= 100.0
  {
    RatioBounds(part, total);
  }
}
