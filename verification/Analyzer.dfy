/**
 The performance analyzer's data intake: a sliding window of measurements and a baseline that is
 established once.
 */
module Analyzer {
  import opened Common
  import opened Regression

  /** The measurements the baseline and the trends read. */
  datatype Data = Data(latency: real, throughput: real, successRate: real, totalRequests: nat,
                       failedRequests: nat, activeConnections: nat)

  datatype Baseline = Baseline(latency: real, throughput: real, successRate: real, errorRate: real)

  function ErrorRate(d: Data): real
  {
    if d.totalRequests > 0 then (d.failedRequests as real / d.totalRequests as real) * 100.0 else 0.0
  }

  function Column(ds: seq<Data>, metric: Data -> real): (v: seq<real>)
    ensures |v| == |ds|
  {
    seq(|ds|, i requires 0 <= i < |ds| => metric(ds[i]))
  }

  function BaselineOf(ds: seq<Data>): Baseline
    requires ds != []
  {
    Baseline(Mean(Column(ds, LatencyOf)), Mean(Column(ds, ThroughputOf)), Mean(Column(ds, SuccessOf)),
             Mean(Column(ds, ErrorRate)))
  }

  /** The sum of one quantity over the measurements. */
  function TotalOf(ds: seq<Data>, quantity: Data -> real): real
  {
    if ds == [] then 0.0 else TotalOf(ds[..|ds| - 1], quantity) + quantity(ds[|ds| - 1])
  }

  lemma {:induction false} ColumnTotal(ds: seq<Data>, quantity: Data -> real)
    ensures SumY(Column(ds, quantity)) == TotalOf(ds, quantity)
  {
    if ds == [] {
    } else {
      var n := |ds| - 1;
      ColumnTotal(ds[..n], quantity);
      assert Column(ds, quantity)[..n] == Column(ds[..n], quantity);
    }
  }

  predicate IsMean(mean: real, n: nat, total: real)
  {
    mean * n as real == total
  }

  lemma MeanTimesCount(v: seq<real>, n: nat, total: real)
    requires v != [] && n == |v| && total == SumY(v)
    ensures IsMean(Mean(v), n, total)
  {
  }

  function LatencyOf(d: Data): real
  {
    d.latency
  }

  function ThroughputOf(d: Data): real
  {
    d.throughput
  }

  function SuccessOf(d: Data): real
  {
    d.successRate
  }

  /** Each field of the baseline is the mean of its own quantity. */
  lemma BaselineMeans(ds: seq<Data>)
    requires ds != []
    ensures var b := BaselineOf(ds);
            && IsMean(b.latency, |ds|, TotalOf(ds, LatencyOf))
            && IsMean(b.throughput, |ds|, TotalOf(ds, ThroughputOf))
            && IsMean(b.successRate, |ds|, TotalOf(ds, SuccessOf))
            && IsMean(b.errorRate, |ds|, TotalOf(ds, ErrorRate))
  {
    ColumnMean(ds, LatencyOf);
    ColumnMean(ds, ThroughputOf);
    ColumnMean(ds, SuccessOf);
    ColumnMean(ds, ErrorRate);
  }

  lemma ColumnMean(ds: seq<Data>, quantity: Data -> real)
    requires ds != []
    ensures IsMean(Mean(Column(ds, quantity)), |ds|, TotalOf(ds, quantity))
  {
    ColumnTotal(ds, quantity);
    MeanTimesCount(Column(ds, quantity), |ds|, TotalOf(ds, quantity));
  }

  /** The error rate is the percentage of failed requests, and zero without requests. */
  lemma ErrorRateMeans(d: Data)
    ensures d.totalRequests == 0 ==> ErrorRate(d) == 0.0
    ensures ErrorRate(d) * d.totalRequests as real ==
            if d.totalRequests == 0 then 0.0 else 100.0 * d.failedRequests as real
  {
    if d.totalRequests > 0 {
      var q := d.failedRequests as real / d.totalRequests as real;
      assert q * d.totalRequests as real == d.failedRequests as real;
      assert q * 100.0 * d.totalRequests as real == 100.0 * (q * d.totalRequests as real);
    }
  }

  datatype State = State(window: seq<Data>, baseline: Option<Baseline>)

  /** Evict the oldest point if the window is full, then append. */
  function Slid(windowSize: nat, window: seq<Data>, d: Data): seq<Data>
  {
    (if |window| >= windowSize && window != [] then window[1..] else window) + [d]
  }

  function Added(windowSize: nat, s: State, d: Data): State
  {
    var window := Slid(windowSize, s.window, d);
    State(window, if s.baseline.None? && |window| >= 10 then Some(BaselineOf(window)) else s.baseline)
  }

  function AfterAll(windowSize: nat, ds: seq<Data>): State
  {
    if ds == [] then State([], None) else Added(windowSize, AfterAll(windowSize, ds[..|ds| - 1]), ds[|ds| - 1])
  }

  function Latest(ds: seq<Data>, k: nat): seq<Data>
  {
    ds[|ds| - Min(k, |ds|)..]
  }

  /** A window size of zero still keeps one point. */
  function Capacity(windowSize: nat): nat
  {
    if windowSize == 0 then 1 else windowSize
  }

  lemma SlidLatest(windowSize: nat, ds: seq<Data>, d: Data)
    ensures Slid(windowSize, Latest(ds, Capacity(windowSize)), d) == Latest(ds + [d], Capacity(windowSize))
  {
  }

  lemma {:induction false} WindowIsLatest(windowSize: nat, ds: seq<Data>)
    ensures AfterAll(windowSize, ds).window == Latest(ds, Capacity(windowSize))
  {
    if ds == [] {
    } else {
      var n := |ds| - 1;
      WindowIsLatest(windowSize, ds[..n]);
      SlidLatest(windowSize, ds[..n], ds[n]);
      assert ds[..n] + [ds[n]] == ds;
    }
  }

  lemma {:induction false} BaselineIsFirstTen(windowSize: nat, ds: seq<Data>)
    ensures AfterAll(windowSize, ds).baseline ==
            if windowSize >= 10 && |ds| >= 10 then Some(BaselineOf(ds[..10])) else None
  {
    if ds == [] {
    } else {
      var n := |ds| - 1;
      BaselineIsFirstTen(windowSize, ds[..n]);
      WindowIsLatest(windowSize, ds);
      if n >= 10 {
        assert ds[..n][..10] == ds[..10];
      } else if n == 9 && windowSize >= 10 {
        assert Latest(ds, Capacity(windowSize)) == ds[..10];
      }
    }
  }

  /**
   After any run the window holds exactly the most recent points that fit. The baseline is never set
   if the window is smaller than ten; otherwise it is set at the tenth point to the mean of the first
   ten and never changes.
   */
  lemma WindowAndBaseline(windowSize: nat, ds: seq<Data>)
    ensures AfterAll(windowSize, ds).window == Latest(ds, Capacity(windowSize))
    ensures AfterAll(windowSize, ds).baseline ==
            if windowSize >= 10 && |ds| >= 10 then Some(BaselineOf(ds[..10])) else None
  {
    WindowIsLatest(windowSize, ds);
    BaselineIsFirstTen(windowSize, ds);
  }

  class PerformanceAnalyzer {
    const windowSize: nat
    var historicalData: seq<Data>
    var baseline: Option<Baseline>
    ghost var added: seq<Data>

    ghost predicate Valid()
      reads this
    {
      State(historicalData, baseline) == AfterAll(windowSize, added)
    }

    constructor (windowSize: nat)
      ensures Valid() && added == [] && this.windowSize == windowSize
    {
      this.windowSize := windowSize;
      historicalData, baseline, added := [], None, [];
    }

    method EstablishBaseline()
      modifies this`baseline
      ensures baseline == if |historicalData| < 10 then old(baseline) else Some(BaselineOf(historicalData))
    {
      if |historicalData| < 10 {
        return;
      }
      baseline := Some(BaselineOf(historicalData));
    }

    method AddDataPoint(d: Data)
      requires Valid()
      modifies this
      ensures Valid() && added == old(added) + [d]
      ensures historicalData == Latest(added, Capacity(windowSize))
      ensures old(baseline).Some? ==> baseline == old(baseline)
    {
      ghost var before := added;
      if |historicalData| >= windowSize && historicalData != [] {
        historicalData := historicalData[1..];
      }
      historicalData := historicalData + [d];
      added := added + [d];
      assert added[..|added| - 1] == before;
      if baseline.None? && |historicalData| >= 10 {
        EstablishBaseline();
      }
      WindowAndBaseline(windowSize, added);
    }

    /** The trend of one metric over the current window. */
    method AnalyzeTrend(metric: Data -> real) returns (t: Trend)
      requires Valid()
      ensures t == AnalyzeMetricTrend(Column(Latest(added, Capacity(windowSize)), metric))
    {
      WindowAndBaseline(windowSize, added);
      t := AnalyzeMetricTrend(Column(historicalData, metric));
    }
  }
}
