/**
 The error tracker's spike detection and time buckets. Timestamps are seconds on an exact real line;
 the error categorizer is an arbitrary function.
 */
module ErrorWindows {
  import opened Common
  import opened Intervals

  datatype Event<T> = Event(timestamp: real, error: T)

  function Times<T>(es: seq<Event<T>>): (ts: seq<real>)
    ensures |ts| == |es| && forall i :: 0 <= i < |es| ==> ts[i] == es[i].timestamp
  {
    seq(|es|, i requires 0 <= i < |es| => es[i].timestamp)
  }

  // ---------- Windows ----------

  /** The end of the window that starts at `start`: the first later error beyond its time span. */
  function WindowEnd<T>(es: seq<Event<T>>, start: nat, span: real, from: nat): (end: nat)
    requires start < |es| && start <= from <= |es|
    ensures from <= end <= |es|
    ensures forall j :: from <= j < end ==> es[j].timestamp <= es[start].timestamp + span
    ensures end < |es| ==> es[end].timestamp > es[start].timestamp + span
    decreases |es| - from
  {
    if from < |es| && es[from].timestamp <= es[start].timestamp + span then WindowEnd(es, start, span, from + 1)
    else from
  }

  datatype Window = Window(start: nat, end: nat)

  /** The windows from `start` on. */
  function Windows<T>(es: seq<Event<T>>, span: real, start: nat): seq<Window>
    requires span >= 0.0 && start <= |es|
    decreases |es| - start
  {
    if start == |es| then [] else
      var end := WindowEnd(es, start, span, start);
      [Window(start, end)] + Windows(es, span, end)
  }

  /** Consecutive non-empty segments that cover the list from `from` to `to`. */
  ghost predicate Tiles(ws: seq<Window>, from: nat, to: nat)
  {
    if ws == [] then from == to
    else ws[0].start == from && from < ws[0].end && Tiles(ws[1..], ws[0].end, to)
  }

  /** Within the span, and not extendable by the next error. */
  ghost predicate Maximal<T>(es: seq<Event<T>>, span: real, w: Window)
  {
    && w.start < w.end <= |es|
    && (forall j :: w.start <= j < w.end ==> es[j].timestamp <= es[w.start].timestamp + span)
    && (w.end < |es| ==> es[w.end].timestamp > es[w.start].timestamp + span)
  }

  /** The windows tile the whole list into consecutive maximal segments. */
  lemma {:induction false} WindowsTile<T>(es: seq<Event<T>>, span: real, start: nat)
    requires span >= 0.0 && start <= |es|
    ensures Tiles(Windows(es, span, start), start, |es|)
    ensures forall i :: 0 <= i < |Windows(es, span, start)| ==> Maximal(es, span, Windows(es, span, start)[i])
    decreases |es| - start
  {
    if start == |es| {
    } else {
      var end := WindowEnd(es, start, span, start);
      WindowsTile(es, span, end);
      var ws := Windows(es, span, start);
      assert ws[1..] == Windows(es, span, end);
      assert forall i :: 1 <= i < |ws| ==> ws[i] == ws[1..][i - 1];
    }
  }

  /** For time-ordered errors a maximal window holds every later error within its span. */
  lemma WindowIsComplete<T>(es: seq<Event<T>>, span: real, w: Window, j: nat)
    requires NonDecreasing(Times(es)) && Maximal(es, span, w) && w.start <= j < |es|
    ensures j < w.end <==> es[j].timestamp <= es[w.start].timestamp + span
  {
  }

  function Sizes(ws: seq<Window>): int
  {
    if ws == [] then 0 else ws[0].end - ws[0].start + Sizes(ws[1..])
  }

  lemma {:induction false} TilingSize(ws: seq<Window>, from: nat, to: nat)
    requires Tiles(ws, from, to)
    ensures from <= to && Sizes(ws) == to - from
  {
    if ws == [] {
    } else {
      TilingSize(ws[1..], ws[0].end, to);
    }
  }

  // ---------- Spikes ----------

  datatype Spike<C> = Spike(magnitude: nat, categories: seq<C>)

  const SPIKE_THRESHOLD := 5

  ghost predicate NoDuplicates<C>(cs: seq<C>)
  {
    forall i, j :: 0 <= i < j < |cs| ==> cs[i] != cs[j]
  }

  /** The categories of the errors in a range, each once, in order of first occurrence. */
  function Categories<T, C(==)>(es: seq<Event<T>>, categorize: T -> C, start: nat, end: nat): seq<C>
    requires start <= end <= |es|
  {
    if start == end then [] else
      var init, c := Categories(es, categorize, start, end - 1), categorize(es[end - 1].error);
      if c in init then init else init + [c]
  }

  lemma {:induction false} CategoriesExact<T, C>(es: seq<Event<T>>, categorize: T -> C, start: nat, end: nat)
    requires start <= end <= |es|
    ensures NoDuplicates(Categories(es, categorize, start, end))
    ensures forall c :: c in Categories(es, categorize, start, end)
                        <==> exists i :: start <= i < end && categorize(es[i].error) == c
    decreases end
  {
    if start == end {
    } else {
      CategoriesExact(es, categorize, start, end - 1);
      var init, last := Categories(es, categorize, start, end - 1), categorize(es[end - 1].error);
      var all := Categories(es, categorize, start, end);
      forall c
        ensures c in all <==> exists i :: start <= i < end && categorize(es[i].error) == c
      {
        assert c in all <==> c in init || c == last;
        if c == last {
          assert categorize(es[end - 1].error) == c;
        }
      }
    }
  }

  /** Categories are listed in the order in which they first occur. */
  lemma {:induction false} CategoriesInOrder<T, C>(es: seq<Event<T>>, categorize: T -> C, start: nat, end: nat, q: nat)
    returns (i: nat)
    requires start <= end <= |es| && q < |Categories(es, categorize, start, end)|
    ensures start <= i < end && categorize(es[i].error) == Categories(es, categorize, start, end)[q]
    ensures Categories(es, categorize, start, i) == Categories(es, categorize, start, end)[..q]
    decreases end
  {
    var all, init := Categories(es, categorize, start, end), Categories(es, categorize, start, end - 1);
    if q < |init| {
      i := CategoriesInOrder(es, categorize, start, end - 1, q);
      assert init[..q] == all[..q] && init[q] == all[q];
    } else {
      i := end - 1;
      assert init == all[..q];
    }
  }

  predicate InRange(ws: seq<Window>, n: nat)
  {
    forall i :: 0 <= i < |ws| ==> ws[i].start <= ws[i].end <= n
  }

  function SpikeAt<T, C(==)>(es: seq<Event<T>>, categorize: T -> C, w: Window): seq<Spike<C>>
    requires w.start <= w.end <= |es|
  {
    if w.end - w.start > SPIKE_THRESHOLD
    then [Spike(w.end - w.start, Categories(es, categorize, w.start, w.end))] else []
  }

  /** The spikes among a list of windows: those with more errors than the threshold. */
  function SpikesOf<T, C(==)>(es: seq<Event<T>>, categorize: T -> C, ws: seq<Window>): seq<Spike<C>>
    requires InRange(ws, |es|)
  {
    if ws == [] then [] else
      SpikesOf(es, categorize, ws[..|ws| - 1]) + SpikeAt(es, categorize, ws[|ws| - 1])
  }

  function Magnitudes<C>(ss: seq<Spike<C>>): nat
  {
    if ss == [] then 0 else Magnitudes(ss[..|ss| - 1]) + ss[|ss| - 1].magnitude
  }

  // ---------- What the spikes report ----------

  /** How many windows hold at least six errors. */
  function LargeCount(ws: seq<Window>): nat
  {
    if ws == [] then 0
    else LargeCount(ws[..|ws| - 1]) + (if ws[|ws| - 1].end - ws[|ws| - 1].start >= 6 then 1 else 0)
  }

  /** The spike has the window's size and exactly its categories, each once. */
  ghost predicate Describes<T(!new), C(!new)>(spike: Spike<C>, es: seq<Event<T>>, categorize: T -> C, w: Window)
    requires w.start <= w.end <= |es|
  {
    && spike.magnitude == w.end - w.start
    && NoDuplicates(spike.categories)
    && forall c :: c in spike.categories <==> exists i :: w.start <= i < w.end && categorize(es[i].error) == c
  }

  /** One spike for each window of at least six errors, in order, and none for the others. */
  ghost predicate Reports<T(!new), C(!new)>(spikes: seq<Spike<C>>, es: seq<Event<T>>, categorize: T -> C,
                                            ws: seq<Window>)
    requires InRange(ws, |es|)
  {
    && |spikes| == LargeCount(ws)
    && forall i :: 0 <= i < |ws| && ws[i].end - ws[i].start >= 6 ==>
         LargeCount(ws[..i]) < |spikes| && Describes(spikes[LargeCount(ws[..i])], es, categorize, ws[i])
  }

  lemma {:induction false} SpikesReport<T(!new), C(!new)>(es: seq<Event<T>>, categorize: T -> C, ws: seq<Window>)
    requires InRange(ws, |es|)
    ensures Reports(SpikesOf(es, categorize, ws), es, categorize, ws)
    decreases |ws|
  {
    if ws == [] {
    } else {
      var init, w := ws[..|ws| - 1], ws[|ws| - 1];
      SpikesReport(es, categorize, init);
      CategoriesExact(es, categorize, w.start, w.end);
      var before, all := SpikesOf(es, categorize, init), SpikesOf(es, categorize, ws);
      assert all == before + SpikeAt(es, categorize, w);
      forall i | 0 <= i < |ws| && ws[i].end - ws[i].start >= 6
        ensures LargeCount(ws[..i]) < |all| && Describes(all[LargeCount(ws[..i])], es, categorize, ws[i])
      {
        assert ws[..i] == init[..i];
        if i < |init| {
          assert all[LargeCount(init[..i])] == before[LargeCount(init[..i])];
        } else {
          assert init[..i] == init;
        }
      }
    }
  }

  /**
   Spike detection by two nested loops: over the windows that tile the list it reports exactly those with at
   least six errors, in order, each with its size and its categories.
   */
  method DetectAnomalousSpikes<T(!new), C(==, !new)>(es: seq<Event<T>>, categorize: T -> C, span: real)
    returns (spikes: seq<Spike<C>>)
    requires span >= 0.0
    ensures InRange(Windows(es, span, 0), |es|)
    ensures spikes == SpikesOf(es, categorize, Windows(es, span, 0))
    ensures Reports(spikes, es, categorize, Windows(es, span, 0))
  {
    spikes := [];
    ghost var ws: seq<Window> := [];
    var start := 0;
    while start < |es|
      invariant start <= |es|
      invariant Windows(es, span, 0) == ws + Windows(es, span, start)
      invariant InRange(ws, |es|)
      invariant spikes == SpikesOf(es, categorize, ws)
    {
      var end := FindWindowEnd(es, start, span);
      WindowsStep(es, span, start, ws);
      var spike := SpikeIn(es, categorize, start, end);
      SpikesSnoc(es, categorize, ws, Window(start, end));
      ws := ws + [Window(start, end)];
      spikes := spikes + spike;
      start := if end > start + 1 then end else start + 1;
    }
    assert ws + [] == ws;
    SpikesReport(es, categorize, ws);
  }

  /** The inner loop: the first error after `start` that lies beyond the span. */
  method FindWindowEnd<T>(es: seq<Event<T>>, start: nat, span: real) returns (end: nat)
    requires start < |es| && span >= 0.0
    ensures end == WindowEnd(es, start, span, start)
  {
    var endTime := es[start].timestamp + span;
    end := start;
    while end < |es| && es[end].timestamp <= endTime
      invariant start <= end <= |es|
      invariant WindowEnd(es, start, span, end) == WindowEnd(es, start, span, start)
    {
      end := end + 1;
    }
  }

  /** The threshold test on one window. */
  method SpikeIn<T, C(==)>(es: seq<Event<T>>, categorize: T -> C, start: nat, end: nat) returns (spike: seq<Spike<C>>)
    requires start <= end <= |es|
    ensures spike == SpikeAt(es, categorize, Window(start, end))
  {
    spike := [];
    if end - start > SPIKE_THRESHOLD {
      var categories := AffectedCategories(es, categorize, start, end);
      spike := [Spike(end - start, categories)];
    }
  }

  lemma WindowsStep<T>(es: seq<Event<T>>, span: real, start: nat, ws: seq<Window>)
    requires span >= 0.0 && start < |es|
    ensures var end := WindowEnd(es, start, span, start);
            && start < end
            && ws + Windows(es, span, start) == (ws + [Window(start, end)]) + Windows(es, span, end)
  {
  }

  lemma SpikesSnoc<T, C>(es: seq<Event<T>>, categorize: T -> C, ws: seq<Window>, w: Window)
    requires InRange(ws, |es|)
    requires w.start <= w.end <= |es|
    ensures SpikesOf(es, categorize, ws + [w]) ==
            SpikesOf(es, categorize, ws) + SpikeAt(es, categorize, w)
    ensures InRange(ws + [w], |es|)
  {
    assert (ws + [w])[..|ws|] == ws;
  }

  method AffectedCategories<T, C(==)>(es: seq<Event<T>>, categorize: T -> C, start: nat, end: nat)
    returns (categories: seq<C>)
    requires start <= end <= |es|
    ensures categories == Categories(es, categorize, start, end)
  {
    categories := [];
    for i := start to end
      invariant categories == Categories(es, categorize, start, i)
    {
      var c := categorize(es[i].error);
      if c !in categories {
        categories := categories + [c];
      }
    }
  }

  lemma {:induction false} SizesSnoc(ws: seq<Window>, w: Window)
    ensures Sizes(ws + [w]) == Sizes(ws) + w.end - w.start
  {
    if ws == [] {
      assert ws + [w] == [w];
    } else {
      SizesSnoc(ws[1..], w);
      assert (ws + [w])[1..] == ws[1..] + [w];
    }
  }

  /** Each spike exceeds the threshold, and all magnitudes together are at most the windows' sizes. */
  lemma {:induction false} MagnitudesBound<T, C>(es: seq<Event<T>>, categorize: T -> C, ws: seq<Window>)
    requires InRange(ws, |es|)
    ensures Magnitudes(SpikesOf(es, categorize, ws)) <= Sizes(ws)
    ensures forall s :: s in SpikesOf(es, categorize, ws) ==>
                          s.magnitude > SPIKE_THRESHOLD && NoDuplicates(s.categories)
    decreases |ws|
  {
    if ws == [] {
    } else {
      var init, w := ws[..|ws| - 1], ws[|ws| - 1];
      MagnitudesBound(es, categorize, init);
      SizesSnoc(init, w);
      assert init + [w] == ws;
      CategoriesExact(es, categorize, w.start, w.end);
      var spikes, spike := SpikesOf(es, categorize, init), SpikeAt(es, categorize, w);
      if spike != [] {
        assert (spikes + spike)[..|spikes|] == spikes;
      } else {
        assert spikes + spike == spikes;
      }
    }
  }

  /** So over the whole list the magnitudes sum to at most the number of errors. */
  lemma SpikesWithinErrors<T, C>(es: seq<Event<T>>, categorize: T -> C, span: real)
    requires span >= 0.0
    ensures var ws := Windows(es, span, 0);
            && InRange(ws, |es|)
            && Magnitudes(SpikesOf(es, categorize, ws)) <= |es|
  {
    var ws := Windows(es, span, 0);
    WindowsTile(es, span, 0);
    assert forall i :: 0 <= i < |ws| ==> Maximal(es, span, ws[i]);
    TilingSize(ws, 0, |es|);
    MagnitudesBound(es, categorize, ws);
  }

  // ---------- Time buckets ----------

  /** Span and bucket size are both truncated to whole seconds before dividing. */
  function BucketCount(span: real, size: real): (n: nat)
    requires span >= 0.0 && size >= 1.0
    ensures n >= 1
  {
    if span.Floor / size.Floor < 1 then 1 else span.Floor / size.Floor
  }

  function BucketStart(start: real, size: real, i: nat): real
  {
    start + size * i as real
  }

  lemma NextStart(start: real, size: real, i: nat)
    ensures BucketStart(start, size, i + 1) == BucketStart(start, size, i) + size
  {
    assert size * (i + 1) as real == size * (i as real + 1.0) == size * i as real + size;
  }

  function BucketBounds(start: real, size: real, n: nat): (b: seq<real>)
    ensures |b| == n + 1
  {
    seq(n + 1, i requires 0 <= i => BucketStart(start, size, i))
  }

  datatype TimeBucket = TimeBucket(start: real, count: nat)

  function CountOf(b: TimeBucket): nat
  {
    b.count
  }

  /** The time between the first and the last error; a negative duration saturates at zero. */
  function Span<T>(es: seq<Event<T>>): (d: real)
    requires es != []
    ensures d >= 0.0
  {
    var d := es[|es| - 1].timestamp - es[0].timestamp;
    if d < 0.0 then 0.0 else d
  }

  function BucketAt<T>(es: seq<Event<T>>, start: real, size: real, i: nat): TimeBucket
  {
    TimeBucket(BucketStart(start, size, i),
               CountIn(Times(es), BucketStart(start, size, i), BucketStart(start, size, i + 1)))
  }

  /** The counting loop; the sum of its counts is what the outer bounds cut out of the list. */
  method CreateTimeBuckets<T>(es: seq<Event<T>>, size: real) returns (buckets: seq<TimeBucket>)
    requires es != [] ==> size >= 1.0
    ensures es == [] ==> buckets == []
    ensures es != [] ==>
              var start, n := es[0].timestamp, BucketCount(Span(es), size);
              && |buckets| == n
              && (forall i :: 0 <= i < n ==> buckets[i] == BucketAt(es, start, size, i))
              && SumOf(buckets, CountOf) ==
                 CountBelow(Times(es), BucketStart(start, size, n)) - CountBelow(Times(es), start)
  {
    buckets := [];
    if es == [] {
      return;
    }
    var start := es[0].timestamp;
    var n := BucketCount(Span(es), size);
    for i := 0 to n
      invariant |buckets| == i
      invariant forall j :: 0 <= j < i ==> buckets[j] == BucketAt(es, start, size, j)
    {
      var from := start + size * i as real;
      var to := from + size;
      NextStart(start, size, i);
      buckets := buckets + [TimeBucket(from, CountIn(Times(es), from, to))];
    }
    BoundsAscend(start, size, n);
    BucketSum(es, start, size, n, buckets);
    Telescope(Times(es), BucketBounds(start, size, n), n);
  }

  lemma {:induction false} BucketSum<T>(es: seq<Event<T>>, start: real, size: real, n: nat, buckets: seq<TimeBucket>)
    requires |buckets| <= n && forall j :: 0 <= j < |buckets| ==> buckets[j] == BucketAt(es, start, size, j)
    ensures SumOf(buckets, CountOf) == Total(Times(es), BucketBounds(start, size, n), |buckets|)
    decreases |buckets|
  {
    if buckets == [] {
    } else {
      BucketSum(es, start, size, n, buckets[..|buckets| - 1]);
    }
  }

  lemma BoundsAscend(start: real, size: real, n: nat)
    requires size >= 0.0
    ensures NonDecreasing(BucketBounds(start, size, n))
  {
    var b := BucketBounds(start, size, n);
    forall i, j | 0 <= i <= j < |b|
      ensures b[i] <= b[j]
    {
      ScaledOrder(size, i as real, j as real);
    }
  }

  lemma ScaledOrder(size: real, i: real, j: real)
    requires size >= 0.0 && i <= j
    ensures size * i <= size * j
  {
    assert size * (j - i) >= 0.0;
  }

  /** Where the last bucket ends. */
  function Cut<T>(es: seq<Event<T>>, size: real): real
    requires size >= 1.0 && es != []
  {
    BucketStart(es[0].timestamp, size, BucketCount(Span(es), size))
  }

  /**
   For time-ordered errors the bucket counts sum to all errors exactly when the span is less than all the
   buckets together, so exactly when the last error lies before the end of the last bucket.
   */
  lemma BucketsCoverIff<T>(es: seq<Event<T>>, size: real)
    requires size >= 1.0 && es != [] && NonDecreasing(Times(es))
    ensures CountBelow(Times(es), es[0].timestamp) == 0
    ensures CountBelow(Times(es), Cut(es, size)) == |es| <==> es[|es| - 1].timestamp < Cut(es, size)
    ensures es[|es| - 1].timestamp < Cut(es, size) <==> Span(es) < size * BucketCount(Span(es), size) as real
  {
    NoneBelow(Times(es), es[0].timestamp);
    if es[|es| - 1].timestamp < Cut(es, size) {
      AllBelow(Times(es), Cut(es, size));
    } else {
      SomeNotBelow(Times(es), Cut(es, size), |es| - 1);
    }
  }

  /**
   For a whole number of seconds that is exactly when the errors span less than one bucket. Otherwise exactly
   the errors of the final partial bucket are omitted, and the last error is always one of them.
   */
  lemma BucketsCoverIffShort<T>(es: seq<Event<T>>, size: nat)
    requires size > 0 && es != [] && NonDecreasing(Times(es))
    ensures var cut := Cut(es, size as real);
            && (CountBelow(Times(es), cut) == |es| <==> Span(es) < size as real)
            && (Span(es) >= size as real ==> cut <= es[|es| - 1].timestamp < cut + size as real)
  {
    BucketsCoverIff(es, size as real);
    WholeCut(Span(es), size);
  }

  lemma WholeCut(span: real, size: nat)
    requires size > 0 && span >= 0.0
    ensures var whole := size as real * BucketCount(span, size as real) as real;
            && (span < size as real ==> whole == size as real)
            && (span >= size as real ==> whole <= span < whole + size as real)
  {
    var a := span.Floor;
    assert (size as real).Floor == size;
    if a < size {
      SmallQuotient(a, size);
    } else {
      WholeBuckets(a, size);
      var n := a / size;
      assert size as real * n as real == (size * n) as real;
    }
  }

  /** With a fractional size the truncated division makes more buckets, which may reach beyond the last error. */
  lemma FractionalSizeCovers()
    ensures BucketCount(3.2, 1.5) == 3 && 3.2 < 1.5 * 3.0
  {
    assert 3.2.Floor == 3 && 1.5.Floor == 1;
  }

  lemma SmallQuotient(a: nat, size: nat)
    requires size > 0 && a < size
    ensures a / size == 0
  {
  }

  lemma WholeBuckets(a: nat, size: nat)
    requires size > 0 && a >= size
    ensures a / size >= 1 && size * (a / size) <= a < size * (a / size) + size
  {
  }
}
