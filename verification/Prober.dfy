/**
 The RTT and bandwidth prober of the control plane: nonce matching of PING and PONG frames and
 exponentially smoothed metrics per node. Times are seconds on an exact real line.
 */
module Prober {
  import opened Common

  /** A PING that was built: for which node and when. */
  datatype Ping = Ping(node: NodeId, sent: real)

  datatype Metrics = Metrics(rtt: real, bw: real)

  // ---------- Smoothing ----------

  /** The estimate after a series of samples. */
  function Smoothed(samples: seq<real>): real
  {
    if samples == [] then 0.0 else Smooth(Smoothed(samples[..|samples| - 1]), samples[|samples| - 1])
  }

  lemma SmoothedSnoc(samples: seq<real>, x: real)
    ensures Smoothed(samples + [x]) == Smooth(Smoothed(samples), x)
  {
    assert (samples + [x])[..|samples|] == samples;
  }

  /** The estimate stays within the range of its own samples. */
  lemma {:induction false} SmoothedInRange(samples: seq<real>, lo: real, hi: real)
    requires samples != [] && forall i :: 0 <= i < |samples| ==> lo <= samples[i] <= hi
    ensures lo <= Smoothed(samples) <= hi
  {
    var n := |samples| - 1;
    if n == 0 {
      assert samples[..0] == [];
    } else {
      SmoothedInRange(samples[..n], lo, hi);
    }
  }

  /** The estimate after `k` more samples of the same value. */
  function Settle(estimate: real, x: real, k: nat): real
  {
    if k == 0 then estimate else Smooth(Settle(estimate, x, k - 1), x)
  }

  lemma {:induction false} RepeatSettles(samples: seq<real>, x: real, k: nat)
    ensures Smoothed(samples + Repeat(x, k)) == Settle(Smoothed(samples), x, k)
  {
    if k == 0 {
      assert samples + Repeat(x, 0) == samples;
    } else {
      RepeatSettles(samples, x, k - 1);
      assert samples + Repeat(x, k) == (samples + Repeat(x, k - 1)) + [x];
      SmoothedSnoc(samples + Repeat(x, k - 1), x);
    }
  }

  /** The distance to the repeated sample shrinks by a fifth at every step. */
  lemma {:induction false} SettleDistance(estimate: real, x: real, k: nat)
    requires estimate > 0.0 && x > 0.0
    ensures Settle(estimate, x, k) - x == PowReal(0.8, k) * (estimate - x)
    ensures Settle(estimate, x, k) > 0.0
  {
    if k == 0 {
    } else {
      SettleDistance(estimate, x, k - 1);
      var v := Settle(estimate, x, k - 1);
      assert Smooth(v, x) - x == 0.8 * (v - x);
      Contract(v - x, PowReal(0.8, k - 1), estimate - x);
    }
  }

  lemma Contract(d: real, p: real, d0: real)
    requires d == p * d0
    ensures 0.8 * d == (0.8 * p) * d0
  {
  }

  /** From a positive estimate, `k` equal positive samples shrink the distance to them by `0.8^k`. */
  lemma Convergence(samples: seq<real>, x: real, k: nat)
    requires Smoothed(samples) > 0.0 && x > 0.0
    ensures Smoothed(samples + Repeat(x, k)) - x == PowReal(0.8, k) * (Smoothed(samples) - x)
  {
    RepeatSettles(samples, x, k);
    SettleDistance(Smoothed(samples), x, k);
  }

  // ---------- The prober as a machine ----------

  datatype State = State(outstanding: map<nat, Ping>, metrics: map<NodeId, Metrics>)

  datatype Event =
    | Build(nonce: nat, node: NodeId, now: real)
    | Pong(nonce: nat, now: real)
    | Bytes(node: NodeId, bytes: nat, elapsed: real)

  /** A built nonce is not outstanding; bytes are reported over a positive time. */
  predicate Enabled(s: State, e: Event)
  {
    match e
    case Build(nonce, _, _) => nonce !in s.outstanding
    case Pong(_, _) => true
    case Bytes(_, _, elapsed) => elapsed > 0.0
  }

  /** The clock never runs backwards: an elapsed time is never negative. */
  function ElapsedMs(p: Ping, now: real): real
  {
    if now < p.sent then 0.0 else (now - p.sent) * 1000.0
  }

  function Mbps(bytes: nat, elapsed: real): real
    requires elapsed > 0.0
  {
    (bytes as real * 8.0) / (elapsed * 1_000_000.0)
  }

  function MetricsOf(m: map<NodeId, Metrics>, node: NodeId): Metrics
  {
    if node in m then m[node] else Metrics(0.0, 0.0)
  }

  function Next(s: State, e: Event): State
    requires Enabled(s, e)
  {
    match e
    case Build(nonce, node, now) => s.(outstanding := s.outstanding[nonce := Ping(node, now)])
    case Pong(nonce, now) =>
      if nonce !in s.outstanding then s else
        var p := s.outstanding[nonce];
        var m := MetricsOf(s.metrics, p.node);
        State(s.outstanding - {nonce}, s.metrics[p.node := m.(rtt := Smooth(m.rtt, ElapsedMs(p, now)))])
    case Bytes(node, bytes, elapsed) =>
      var m := MetricsOf(s.metrics, node);
      s.(metrics := s.metrics[node := m.(bw := Smooth(m.bw, Mbps(bytes, elapsed)))])
  }

  // ---------- What a run has done ----------

  /** A ping together with its nonce. */
  datatype Issue = Issue(nonce: nat, ping: Ping)

  datatype History = History(built: seq<Issue>, credited: seq<Issue>,
                             rtts: map<NodeId, seq<real>>, bws: map<NodeId, seq<real>>)

  function SamplesOf(m: map<NodeId, seq<real>>, node: NodeId): seq<real>
  {
    if node in m then m[node] else []
  }

  function Record(h: History, s: State, e: Event): History
    requires Enabled(s, e)
  {
    match e
    case Build(nonce, node, now) => h.(built := h.built + [Issue(nonce, Ping(node, now))])
    case Pong(nonce, now) =>
      if nonce !in s.outstanding then h else
        var p := s.outstanding[nonce];
        h.(credited := h.credited + [Issue(nonce, p)],
           rtts := h.rtts[p.node := SamplesOf(h.rtts, p.node) + [ElapsedMs(p, now)]])
    case Bytes(node, bytes, elapsed) =>
      h.(bws := h.bws[node := SamplesOf(h.bws, node) + [Mbps(bytes, elapsed)]])
  }

  function Occurrences(list: seq<Issue>, x: Issue): nat
  {
    if list == [] then 0 else Occurrences(list[..|list| - 1], x) + (if list[|list| - 1] == x then 1 else 0)
  }

  lemma OccurrencesSnoc(list: seq<Issue>, y: Issue, x: Issue)
    ensures Occurrences(list + [y], x) == Occurrences(list, x) + (if y == x then 1 else 0)
  {
    assert (list + [y])[..|list|] == list;
  }

  predicate Pending(s: State, x: Issue)
  {
    x.nonce in s.outstanding && s.outstanding[x.nonce] == x.ping
  }

  /** Each ping that was built is either still pending or was credited, once, as it was built. */
  ghost predicate Matched(s: State, h: History, x: Issue)
  {
    && Occurrences(h.built, x) == Occurrences(h.credited, x) + (if Pending(s, x) then 1 else 0)
    && |h.built| == |h.credited| + |s.outstanding|
  }

  lemma SizeAfterAdd(m: map<nat, Ping>, k: nat, p: Ping)
    requires k !in m
    ensures |m[k := p]| == |m| + 1
  {
    assert m[k := p].Keys == m.Keys + {k};
    assert |m[k := p]| == |m[k := p].Keys| && |m| == |m.Keys|;
  }

  lemma SizeAfterRemove(m: map<nat, Ping>, k: nat)
    requires k in m
    ensures |m - {k}| == |m| - 1
  {
    assert (m - {k}).Keys == m.Keys - {k};
    assert |m - {k}| == |(m - {k}).Keys| && |m| == |m.Keys|;
  }

  lemma BuildKeepsMatched(s: State, h: History, nonce: nat, node: NodeId, now: real, x: Issue)
    requires Matched(s, h, x) && nonce !in s.outstanding
    ensures Matched(Next(s, Build(nonce, node, now)), Record(h, s, Build(nonce, node, now)), x)
  {
    OccurrencesSnoc(h.built, Issue(nonce, Ping(node, now)), x);
    SizeAfterAdd(s.outstanding, nonce, Ping(node, now));
  }

  lemma PongKeepsMatched(s: State, h: History, nonce: nat, now: real, x: Issue)
    requires Matched(s, h, x) && nonce in s.outstanding
    ensures Matched(Next(s, Pong(nonce, now)), Record(h, s, Pong(nonce, now)), x)
  {
    OccurrencesSnoc(h.credited, Issue(nonce, s.outstanding[nonce]), x);
    SizeAfterRemove(s.outstanding, nonce);
  }

  lemma StepKeepsMatched(s: State, h: History, e: Event, x: Issue)
    requires Matched(s, h, x) && Enabled(s, e)
    ensures Matched(Next(s, e), Record(h, s, e), x)
  {
    match e
    case Build(nonce, node, now) => BuildKeepsMatched(s, h, nonce, node, now, x);
    case Pong(nonce, now) =>
      if nonce in s.outstanding {
        PongKeepsMatched(s, h, nonce, now, x);
      }
    case Bytes(_, _, _) =>
  }

  /** Every node's metrics are the smoothed values of its own samples. */
  ghost predicate Faithful(s: State, h: History, node: NodeId)
  {
    MetricsOf(s.metrics, node) == Metrics(Smoothed(SamplesOf(h.rtts, node)), Smoothed(SamplesOf(h.bws, node)))
  }

  lemma StepKeepsFaithful(s: State, h: History, e: Event, node: NodeId)
    requires Faithful(s, h, node) && Enabled(s, e)
    ensures Faithful(Next(s, e), Record(h, s, e), node)
  {
    match e
    case Build(_, _, _) =>
    case Pong(nonce, now) =>
      if nonce in s.outstanding {
        SmoothedSnoc(SamplesOf(h.rtts, node), ElapsedMs(s.outstanding[nonce], now));
      }
    case Bytes(_, bytes, elapsed) =>
      SmoothedSnoc(SamplesOf(h.bws, node), Mbps(bytes, elapsed));
  }

  datatype Execution = Execution(state: State, history: History)

  const INITIAL := Execution(State(map[], map[]), History([], [], map[], map[]))

  predicate Follows(a: Execution, e: Event, b: Execution)
  {
    Enabled(a.state, e) && b == Execution(Next(a.state, e), Record(a.history, a.state, e))
  }

  predicate IsExecution(es: seq<Event>, xs: seq<Execution>)
  {
    |xs| == |es| + 1 && xs[0] == INITIAL && forall i :: 0 <= i < |es| ==> Follows(xs[i], es[i], xs[i + 1])
  }

  /**
   Over every run of pings, pongs and byte reports: each pong is credited at most once and only to the
   node its ping was built for, outstanding plus matched pings equal the pings built, and each node's
   estimates are the smoothed series of exactly its own samples.
   */
  lemma {:induction false} ProberAccounts(es: seq<Event>, xs: seq<Execution>, k: nat, x: Issue, node: NodeId)
    requires IsExecution(es, xs) && k <= |es|
    ensures Matched(xs[k].state, xs[k].history, x)
    ensures Faithful(xs[k].state, xs[k].history, node)
  {
    if k == 0 {
    } else {
      ProberAccounts(es, xs, k - 1, x, node);
      assert Follows(xs[k - 1], es[k - 1], xs[k]);
      StepKeepsMatched(xs[k - 1].state, xs[k - 1].history, es[k - 1], x);
      StepKeepsFaithful(xs[k - 1].state, xs[k - 1].history, es[k - 1], node);
    }
  }

  /** So a node's smoothed RTT lies within the range of the RTTs measured for that node. */
  lemma RttWithinOwnSamples(es: seq<Event>, xs: seq<Execution>, k: nat, node: NodeId, lo: real, hi: real)
    requires IsExecution(es, xs) && k <= |es|
    requires SamplesOf(xs[k].history.rtts, node) != []
    requires forall i :: 0 <= i < |SamplesOf(xs[k].history.rtts, node)| ==>
                           lo <= SamplesOf(xs[k].history.rtts, node)[i] <= hi
    ensures lo <= MetricsOf(xs[k].state.metrics, node).rtt <= hi
  {
    ProberAccounts(es, xs, k, Issue(0, Ping(0, 0.0)), node);
    SmoothedInRange(SamplesOf(xs[k].history.rtts, node), lo, hi);
  }

  lemma BandwidthWithinOwnSamples(es: seq<Event>, xs: seq<Execution>, k: nat, node: NodeId, lo: real, hi: real)
    requires IsExecution(es, xs) && k <= |es|
    requires SamplesOf(xs[k].history.bws, node) != []
    requires forall i :: 0 <= i < |SamplesOf(xs[k].history.bws, node)| ==>
                           lo <= SamplesOf(xs[k].history.bws, node)[i] <= hi
    ensures lo <= MetricsOf(xs[k].state.metrics, node).bw <= hi
  {
    ProberAccounts(es, xs, k, Issue(0, Ping(0, 0.0)), node);
    SmoothedInRange(SamplesOf(xs[k].history.bws, node), lo, hi);
  }

  // ---------- What one sample is ----------

  /** A ping answered `t` seconds later, the first one for its node, gives an RTT of `1000 * t` milliseconds. */
  lemma FirstRoundTrip(s: State, nonce: nat, node: NodeId, sent: real, t: real)
    requires nonce !in s.outstanding && MetricsOf(s.metrics, node).rtt == 0.0 && t >= 0.0
    ensures var n := Next(Next(s, Build(nonce, node, sent)), Pong(nonce, sent + t));
            MetricsOf(n.metrics, node).rtt == 1000.0 * t && nonce !in n.outstanding
  {
  }

  /** The first report of bytes over `t` seconds for a node gives its rate: `8 * bytes` bits in megabits per second. */
  lemma FirstReport(s: State, node: NodeId, bytes: nat, t: real)
    requires MetricsOf(s.metrics, node).bw == 0.0 && t > 0.0
    ensures MetricsOf(Next(s, Bytes(node, bytes, t)).metrics, node).bw * 1_000_000.0 * t == 8.0 * bytes as real
  {
    RateTimesDuration(8.0 * bytes as real, t);
  }

  lemma RateTimesDuration(bits: real, t: real)
    requires t > 0.0
    ensures bits / (t * 1_000_000.0) * 1_000_000.0 * t == bits
  {
    var d := t * 1_000_000.0;
    assert bits / d * d == bits;
    assert bits / d * 1_000_000.0 * t == bits / d * d;
  }

  // ---------- The mutable prober ----------

  class RttBwProber {
    var outstanding: map<nat, Ping>
    var metrics: map<NodeId, Metrics>

    function View(): State
      reads this
    {
      State(outstanding, metrics)
    }

    constructor ()
      ensures View() == INITIAL.state
    {
      outstanding, metrics := map[], map[];
    }

    /** Takes the first drawn nonce that is not outstanding. */
    method BuildPing(node: NodeId, draws: seq<nat>, now: real) returns (nonce: nat)
      requires exists i :: 0 <= i < |draws| && draws[i] !in outstanding
      modifies this`outstanding
      ensures nonce in draws && nonce !in old(outstanding)
      ensures View() == Next(old(View()), Build(nonce, node, now))
    {
      var i := 0;
      while draws[i] in outstanding
        invariant 0 <= i < |draws|
        invariant forall j :: 0 <= j < i ==> draws[j] in outstanding
        decreases |draws| - i
      {
        i := i + 1;
      }
      nonce := draws[i];
      outstanding := outstanding[nonce := Ping(node, now)];
    }

    method OnPong(nonce: nat, now: real)
      modifies this
      ensures View() == Next(old(View()), Pong(nonce, now))
    {
      if nonce in outstanding {
        var ping := outstanding[nonce];
        outstanding := outstanding - {nonce};
        var m := if ping.node in metrics then metrics[ping.node] else Metrics(0.0, 0.0);
        metrics := metrics[ping.node := m.(rtt := Smooth(m.rtt, ElapsedMs(ping, now)))];
      }
    }

    method RecordBytes(node: NodeId, bytes: nat, elapsed: real)
      requires elapsed > 0.0
      modifies this`metrics
      ensures View() == Next(old(View()), Bytes(node, bytes, elapsed))
    {
      var m := if node in metrics then metrics[node] else Metrics(0.0, 0.0);
      metrics := metrics[node := m.(bw := Smooth(m.bw, Mbps(bytes, elapsed)))];
    }
  }
}
