/**
 How far the simulator's bandwidth limit actually holds. Admission compares the usage of the
 current window with the limit, but a packet is only charged when it leaves its queue, so
 several queued packets can each have passed the same check.
 */
module Bandwidth {
  import opened Common
  import opened PacketScheduler

  function Total(ps: seq<Packet>): real
  {
    if ps == [] then 0.0 else Mbits(ps[0].size) + Total(ps[1..])
  }

  function Backlog(q: Queues): real
    requires Complete(q)
  {
    Total(q[Critical]) + Total(q[High]) + Total(q[Normal]) + Total(q[Low])
  }

  function Queued(q: Queues): nat
    requires Complete(q)
  {
    |q[Critical]| + |q[High]| + |q[Normal]| + |q[Low]|
  }

  /** `n` times the limit, as a repeated sum. */
  function Multiple(n: nat, limit: real): real
  {
    if n == 0 then 0.0 else Multiple(n - 1, limit) + limit
  }

  lemma {:induction false} MultipleIsProduct(n: nat, limit: real)
    ensures Multiple(n, limit) == n as real * limit
  {
    if n == 0 {
    } else {
      MultipleIsProduct(n - 1, limit);
      assert n as real * limit == (n - 1) as real * limit + limit;
    }
  }

  lemma {:induction false} MultipleAdd(m: nat, n: nat, limit: real)
    ensures Multiple(m + n, limit) == Multiple(m, limit) + Multiple(n, limit)
  {
    if m == 0 {
    } else {
      MultipleAdd(m - 1, n, limit);
    }
  }

  lemma {:induction false} MultipleMonotone(m: nat, n: nat, limit: real)
    requires m <= n && limit >= 0.0
    ensures Multiple(m, limit) <= Multiple(n, limit)
    decreases n - m
  {
    if m == n {
    } else {
      MultipleMonotone(m + 1, n, limit);
    }
  }

  /** The queue length after every operation of the run is at most `k`. */
  predicate NeverMoreThan(k: nat, s: Sched, ops: seq<Op>)
    requires Complete(s.queues)
  {
    && Queued(Run(s, ops).queues) <= k
    && (ops != [] ==> NeverMoreThan(k, s, ops[..|ops| - 1]))
  }

  /** Each queued packet fits under the limit on its own. */
  ghost predicate EachFits(q: Queues, limit: real)
    requires Complete(q)
  {
    forall p: Priority, x :: x in q[p] ==> Mbits(x.size) <= limit
  }

  /** A limit below zero admits nothing, like a limit of zero admits nothing but empty packets. */
  function Cap(limit: real): real
  {
    if limit < 0.0 then 0.0 else limit
  }

  ghost predicate Bounded(k: nat, s: Sched)
  {
    && Complete(s.queues)
    && s.tracker.usage >= 0.0
    && EachFits(s.queues, Cap(s.tracker.limit))
    && s.tracker.usage + Backlog(s.queues) <= Multiple(k, Cap(s.tracker.limit))
  }

  lemma {:induction false} TotalBound(ps: seq<Packet>, limit: real)
    requires forall x :: x in ps ==> Mbits(x.size) <= limit
    ensures 0.0 <= Total(ps) <= Multiple(|ps|, limit)
  {
    if ps == [] {
    } else {
      TotalBound(ps[1..], limit);
    }
  }

  lemma BacklogBound(q: Queues, limit: real)
    requires Complete(q) && EachFits(q, limit)
    ensures 0.0 <= Backlog(q) <= Multiple(Queued(q), limit)
  {
    TotalBound(q[Critical], limit);
    TotalBound(q[High], limit);
    TotalBound(q[Normal], limit);
    TotalBound(q[Low], limit);
    var c, h, n, l := |q[Critical]|, |q[High]|, |q[Normal]|, |q[Low]|;
    MultipleAdd(c, h, limit);
    MultipleAdd(c + h, n, limit);
    MultipleAdd(c + h + n, l, limit);
  }

  lemma {:induction false} TotalSnoc(ps: seq<Packet>, x: Packet)
    ensures Total(ps + [x]) == Total(ps) + Mbits(x.size)
  {
    if ps == [] {
      assert ps + [x] == [x];
    } else {
      TotalSnoc(ps[1..], x);
      assert (ps + [x])[1..] == ps[1..] + [x];
    }
  }

  /** The four queues after replacing one of them. */
  lemma ReplaceLookup(q: Queues, p: Priority, ps: seq<Packet>, x: Priority)
    requires Complete(q)
    ensures Complete(q[p := ps]) && q[p := ps][x] == if x == p then ps else q[x]
  {
  }

  lemma ReplaceParts(q: Queues, p: Priority, ps: seq<Packet>) returns (r: Queues)
    requires Complete(q)
    ensures r == q[p := ps] && Complete(r)
    ensures r[Critical] == if p == Critical then ps else q[Critical]
    ensures r[High] == if p == High then ps else q[High]
    ensures r[Normal] == if p == Normal then ps else q[Normal]
    ensures r[Low] == if p == Low then ps else q[Low]
  {
    r := q[p := ps];
    ReplaceLookup(q, p, ps, Critical);
    ReplaceLookup(q, p, ps, High);
    ReplaceLookup(q, p, ps, Normal);
    ReplaceLookup(q, p, ps, Low);
  }

  lemma AllPriorities(p: Priority)
    ensures p == Critical || p == High || p == Normal || p == Low
  {
  }

  /** Replacing one queue changes the backlog and the length by that queue's change. */
  lemma ReplaceQueue(q: Queues, p: Priority, ps: seq<Packet>)
    requires Complete(q)
    ensures Complete(q[p := ps])
    ensures Backlog(q[p := ps]) == Backlog(q) - Total(q[p]) + Total(ps)
    ensures Queued(q[p := ps]) == Queued(q) - |q[p]| + |ps|
  {
    var r := ReplaceParts(q, p, ps);
    AllPriorities(p);
  }

  lemma PutBounded(k: nat, s: Sched, p: Packet, now: real)
    requires Bounded(k, s) && Queued(Put(s, p, now).queues) <= k
    ensures Bounded(k, Put(s, p, now))
  {
    var t := Rolled(s.tracker, now);
    var limit := Cap(s.tracker.limit);
    BacklogBound(s.queues, limit);
    assert t.usage <= s.tracker.usage && t.limit == s.tracker.limit;
    if Fits(t, p.size) {
      var ps := s.queues[p.priority] + [p];
      ReplaceQueue(s.queues, p.priority, ps);
      TotalSnoc(s.queues[p.priority], p);
      MultipleMonotone(Queued(s.queues) + 1, k, limit);
      assert EachFits(Put(s, p, now).queues, limit);
    }
  }

  /** Taking a packet only moves its megabits from the backlog to the usage. */
  lemma TakeConserves(s: Sched)
    requires Complete(s.queues)
    ensures Take(s).tracker.usage + Backlog(Take(s).queues) == s.tracker.usage + Backlog(s.queues)
    ensures Take(s).tracker.usage >= s.tracker.usage
  {
    if Source(s.queues).Some? {
      var p := Source(s.queues).value;
      ReplaceQueue(s.queues, p, s.queues[p][1..]);
    }
  }

  lemma TakeBounded(k: nat, s: Sched)
    requires Bounded(k, s)
    ensures Bounded(k, Take(s))
  {
    TakeConserves(s);
    if Source(s.queues).Some? {
      var p := Source(s.queues).value;
      assert forall x :: x in s.queues[p][1..] ==> x in s.queues[p];
    }
  }

  /**
   With the limit fixed at `L` and never more than `k` packets queued, window usage plus queued
   megabits never exceeds `k * L`, and stays at zero for a limit below zero.
   */
  lemma {:induction false} UsageBound(k: nat, s: Sched, ops: seq<Op>)
    requires Bounded(k, s) && NeverMoreThan(k, s, ops)
    ensures Bounded(k, Run(s, ops))
    ensures Run(s, ops).tracker.limit == s.tracker.limit
    decreases |ops|
  {
    if ops == [] {
    } else {
      var init, op := ops[..|ops| - 1], ops[|ops| - 1];
      UsageBound(k, s, init);
      var before := Run(s, init);
      match op {
        case PutOp(p, now) => PutBounded(k, before, p, now);
        case TakeOp => TakeBounded(k, before);
      }
    }
  }

  /** From a fresh scheduler; with `k == 1` the usage never exceeds the limit. */
  lemma FreshUsageBound(k: nat, limit: real, start: real, ops: seq<Op>) returns (usage: real)
    requires NeverMoreThan(k, Create(limit, start), ops)
    ensures usage == Run(Create(limit, start), ops).tracker.usage >= 0.0
    ensures limit >= 0.0 ==> usage <= k as real * limit
    ensures limit >= 0.0 && k == 1 ==> usage <= limit
    ensures limit < 0.0 ==> usage == 0.0
  {
    usage := FreshMultipleBound(k, limit, start, ops);
    if limit >= 0.0 {
      WithinProduct(k, limit, usage);
    } else {
      ZeroMultiple(k);
    }
  }

  lemma {:induction false} ZeroMultiple(k: nat)
    ensures Multiple(k, 0.0) == 0.0
  {
    if k > 0 {
      ZeroMultiple(k - 1);
    }
  }

  lemma WithinProduct(k: nat, cap: real, usage: real)
    requires usage <= Multiple(k, cap)
    ensures usage <= k as real * cap
    ensures k == 1 ==> usage <= cap
  {
    MultipleIsProduct(k, cap);
    assert Multiple(1, cap) == Multiple(0, cap) + cap;
  }

  lemma FreshMultipleBound(k: nat, limit: real, start: real, ops: seq<Op>) returns (usage: real)
    requires NeverMoreThan(k, Create(limit, start), ops)
    ensures usage == Run(Create(limit, start), ops).tracker.usage
    ensures 0.0 <= usage <= Multiple(k, Cap(limit))
  {
    var s := Create(limit, start);
    MultipleMonotone(0, k, Cap(limit));
    assert Bounded(k, s);
    UsageBound(k, s, ops);
    BacklogBound(Run(s, ops).queues, Cap(limit));
    usage := Run(s, ops).tracker.usage;
  }

  // ---------- The bound is attained ----------

  lemma RunSnoc(s: Sched, ops: seq<Op>, op: Op)
    requires Complete(s.queues)
    ensures Run(s, ops + [op]) == Apply(Run(s, ops), op)
  {
    assert (ops + [op])[..|ops|] == ops;
  }

  /** `n` packets of `each` megabits are queued and nothing is charged. */
  ghost predicate Filled(tracker: Tracker, each: real, n: nat, t: Sched)
  {
    && Complete(t.queues)
    && t.tracker == tracker
    && Queued(t.queues) == n
    && Backlog(t.queues) == Multiple(n, each)
  }

  /** The current window is open, uncharged, and the packet fits. */
  predicate Open(tracker: Tracker, p: Packet, now: real)
  {
    && tracker.usage == 0.0
    && Mbits(p.size) <= tracker.limit
    && now - tracker.windowStart < tracker.windowDuration
  }

  lemma FillStep(tracker: Tracker, n: nat, s: Sched, p: Packet, now: real)
    requires Filled(tracker, Mbits(p.size), n, s) && Open(tracker, p, now)
    ensures Filled(tracker, Mbits(p.size), n + 1, Put(s, p, now))
  {
    ReplaceQueue(s.queues, p.priority, s.queues[p.priority] + [p]);
    TotalSnoc(s.queues[p.priority], p);
  }

  /** Within one window every packet that fits alone is admitted, since none is charged. */
  lemma {:induction false} FillUp(k: nat, n: nat, s: Sched, p: Packet, now: real) returns (t: Sched)
    requires Filled(s.tracker, Mbits(p.size), 0, s) && n <= k && Open(s.tracker, p, now)
    ensures t == Run(s, Repeat(PutOp(p, now), n)) && Filled(s.tracker, Mbits(p.size), n, t)
    ensures NeverMoreThan(k, s, Repeat(PutOp(p, now), n))
    decreases n
  {
    if n == 0 {
      t := s;
    } else {
      var before := FillUp(k, n - 1, s, p, now);
      FillStep(s.tracker, n - 1, before, p, now);
      t := Extend(k, s, Repeat(PutOp(p, now), n - 1), PutOp(p, now), before, Put(before, p, now));
    }
  }

  /** One more operation in a run whose queues stay short. */
  lemma Extend(k: nat, s: Sched, ops: seq<Op>, op: Op, before: Sched, after: Sched) returns (t: Sched)
    requires Complete(s.queues) && NeverMoreThan(k, s, ops) && before == Run(s, ops)
    requires after == Apply(before, op) && Queued(after.queues) <= k
    ensures t == after == Run(s, ops + [op])
    ensures NeverMoreThan(k, s, ops + [op])
  {
    RunSnoc(s, ops, op);
    NeverMoreThanSnoc(k, s, ops, op);
    t := after;
  }

  lemma NeverMoreThanSnoc(k: nat, s: Sched, ops: seq<Op>, op: Op)
    requires Complete(s.queues) && NeverMoreThan(k, s, ops)
    requires Queued(Apply(Run(s, ops), op).queues) <= k
    ensures NeverMoreThan(k, s, ops + [op])
  {
    RunSnoc(s, ops, op);
    assert (ops + [op])[..|ops|] == ops;
  }

  /** `n` packets were taken between two states; only their megabits moved. */
  ghost predicate Drained(from: Sched, n: nat, to: Sched)
  {
    && Complete(from.queues) && Complete(to.queues)
    && Queued(to.queues) + n == Queued(from.queues)
    && to.tracker.usage + Backlog(to.queues) == from.tracker.usage + Backlog(from.queues)
  }

  lemma DrainStep(from: Sched, n: nat, s: Sched)
    requires Drained(from, n, s) && n < Queued(from.queues)
    ensures Drained(from, n + 1, Take(s)) && Queued(Take(s).queues) <= Queued(from.queues)
  {
    TakeConserves(s);
    TakeShortens(s);
  }

  /** Draining charges the whole backlog. */
  lemma {:induction false} Drain(k: nat, s: Sched, ops: seq<Op>, from: Sched, n: nat) returns (t: Sched)
    requires Complete(s.queues) && NeverMoreThan(k, s, ops) && from == Run(s, ops)
    requires n <= Queued(from.queues) <= k
    ensures t == Run(s, ops + Repeat(TakeOp, n)) && Drained(from, n, t)
    ensures NeverMoreThan(k, s, ops + Repeat(TakeOp, n))
    decreases n
  {
    if n == 0 {
      assert ops + Repeat(TakeOp, 0) == ops;
      t := from;
    } else {
      var before := Drain(k, s, ops, from, n - 1);
      DrainStep(from, n - 1, before);
      var prefix := ops + Repeat(TakeOp, n - 1);
      t := Extend(k, s, prefix, TakeOp, before, Take(before));
      SnocRepeat(ops, TakeOp, n);
    }
  }

  lemma SnocRepeat(ops: seq<Op>, op: Op, n: nat)
    requires n > 0
    ensures ops + Repeat(op, n) == (ops + Repeat(op, n - 1)) + [op]
  {
  }

  lemma TakeShortens(s: Sched)
    requires Complete(s.queues) && Queued(s.queues) > 0
    ensures Queued(Take(s).queues) == Queued(s.queues) - 1
  {
    var p := Source(s.queues).value;
    ReplaceQueue(s.queues, p, s.queues[p][1..]);
  }

  /**
   The factor `k` is not slack: for every `k`, `k` copies of a packet that fits alone are admitted in one
   window and then taken, and the usage is exactly `k` times the packet, so `k` times the limit if the
   packet's megabits are the limit.
   */
  lemma BoundAttained(k: nat, s: Sched, p: Packet, now: real) returns (ops: seq<Op>)
    requires Complete(s.queues) && Queued(s.queues) == 0
    requires Open(s.tracker, p, now)
    ensures NeverMoreThan(k, s, ops)
    ensures Run(s, ops).tracker.usage == k as real * Mbits(p.size)
  {
    MultipleIsProduct(k, Mbits(p.size));
    var t;
    ops, t := FillAndDrain(k, s, p, now);
  }

  /** For every limit of at least zero the usage comes within `k` bytes of `k` times the limit. */
  lemma BoundTight(k: nat, limit: real, start: real) returns (ops: seq<Op>, usage: real)
    requires limit >= 0.0
    ensures NeverMoreThan(k, Create(limit, start), ops)
    ensures usage == Run(Create(limit, start), ops).tracker.usage
    ensures k as real * (limit - Mbits(1)) <= usage <= k as real * limit
  {
    var size := LargestFitting(limit);
    ops, usage := FilledRun(k, limit, start, size);
    MultipleBetween(k, limit - Mbits(1), Mbits(size), limit);
  }

  lemma FilledRun(k: nat, limit: real, start: real, size: nat) returns (ops: seq<Op>, usage: real)
    requires Mbits(size) <= limit
    ensures NeverMoreThan(k, Create(limit, start), ops)
    ensures usage == Run(Create(limit, start), ops).tracker.usage == Multiple(k, Mbits(size))
  {
    var t;
    ops, t := FillAndDrain(k, Create(limit, start), Packet(0, 0, 0, [], size, Normal), start);
    usage := t.tracker.usage;
  }

  lemma MultipleBetween(k: nat, low: real, m: real, high: real)
    requires low <= m <= high
    ensures k as real * low <= Multiple(k, m) <= k as real * high
  {
    MultipleOrder(k, low, m);
    MultipleOrder(k, m, high);
    MultipleIsProduct(k, low);
    MultipleIsProduct(k, high);
  }

  lemma {:induction false} MultipleOrder(k: nat, x: real, y: real)
    requires x <= y
    ensures Multiple(k, x) <= Multiple(k, y)
  {
    if k > 0 {
      MultipleOrder(k - 1, x, y);
    }
  }

  lemma LargestFitting(limit: real) returns (size: nat)
    requires limit >= 0.0
    ensures limit - Mbits(1) < Mbits(size) <= limit
  {
    size := (limit * 125_000.0).Floor;
    assert Mbits(size) * 125_000.0 == size as real;
    assert Mbits(1) * 125_000.0 == 1.0;
  }

  lemma FillAndDrain(k: nat, s: Sched, p: Packet, now: real) returns (ops: seq<Op>, t: Sched)
    requires Complete(s.queues) && Queued(s.queues) == 0
    requires Open(s.tracker, p, now)
    ensures NeverMoreThan(k, s, ops) && t == Run(s, ops)
    ensures t.tracker.usage == Multiple(k, Mbits(p.size))
  {
    EmptyBacklog(s.queues);
    var full := FillUp(k, k, s, p, now);
    t := Drain(k, s, Repeat(PutOp(p, now), k), full, k);
    EmptyBacklog(t.queues);
    ops := Repeat(PutOp(p, now), k) + Repeat(TakeOp, k);
  }

  lemma EmptyBacklog(q: Queues)
    requires Complete(q) && Queued(q) == 0
    ensures Backlog(q) == 0.0
  {
  }

  // ---------- When the limit itself holds ----------

  /** In every run that never queues more than `k` packets the usage stays within the limit. */
  ghost predicate LimitHolds(k: nat, limit: real, start: real)
  {
    forall ops: seq<Op> ::
      NeverMoreThan(k, Create(limit, start), ops) ==> WithinCap(limit, Run(Create(limit, start), ops))
  }

  predicate WithinCap(limit: real, s: Sched)
  {
    s.tracker.usage <= Cap(limit)
  }

  /** Nothing is charged, and only empty packets are queued. */
  ghost predicate Weightless(limit: real, s: Sched)
  {
    && Complete(s.queues)
    && s.tracker.limit == limit && s.tracker.usage == 0.0
    && forall p: Priority, x :: x in s.queues[p] ==> x.size == 0
  }

  lemma WeightlessStep(limit: real, s: Sched, op: Op)
    requires limit < Mbits(1) && Weightless(limit, s)
    ensures Weightless(limit, Apply(s, op))
  {
    match op
    case PutOp(p, now) =>
      assert Fits(Rolled(s.tracker, now), p.size) ==> p.size == 0;
    case TakeOp =>
      if Source(s.queues).Some? {
        var src := Source(s.queues).value;
        assert s.queues[src][0] in s.queues[src];
        assert forall x :: x in s.queues[src][1..] ==> x in s.queues[src];
      }
  }

  lemma {:induction false} WeightlessRun(limit: real, s: Sched, ops: seq<Op>)
    requires limit < Mbits(1) && Weightless(limit, s)
    ensures Weightless(limit, Run(s, ops))
    decreases |ops|
  {
    if ops == [] {
    } else {
      WeightlessRun(limit, s, ops[..|ops| - 1]);
      WeightlessStep(limit, Run(s, ops[..|ops| - 1]), ops[|ops| - 1]);
    }
  }

  lemma TwoCopiesExceed(k: nat, limit: real, m: real)
    requires k >= 2 && m >= Mbits(1) && limit - Mbits(1) < m
    ensures Multiple(k, m) > limit
  {
    MultipleMonotone(2, k, m);
    assert Multiple(2, m) == Multiple(1, m) + m && Multiple(1, m) == Multiple(0, m) + m;
  }

  lemma ExceedingRun(k: nat, limit: real, start: real) returns (ops: seq<Op>)
    requires k >= 2 && limit >= Mbits(1)
    ensures NeverMoreThan(k, Create(limit, start), ops) && !WithinCap(limit, Run(Create(limit, start), ops))
  {
    var size := LargestFitting(limit);
    var usage;
    ops, usage := FilledRun(k, limit, start, size);
    TwoCopiesExceed(k, limit, Mbits(size));
  }

  /**
   The limit holds in every run with at most `k` packets queued exactly if at most one packet is ever
   queued, or the limit is below one byte so that only empty packets are admitted.
   */
  lemma LimitHoldsIff(k: nat, limit: real, start: real)
    ensures LimitHolds(k, limit, start) <==> k <= 1 || limit < Mbits(1)
  {
    if k >= 2 && limit >= Mbits(1) {
      var ops := ExceedingRun(k, limit, start);
    } else {
      forall ops: seq<Op> | NeverMoreThan(k, Create(limit, start), ops)
        ensures WithinCap(limit, Run(Create(limit, start), ops))
      {
        LimitHoldsInRun(k, limit, start, ops);
      }
    }
  }

  lemma LimitHoldsInRun(k: nat, limit: real, start: real, ops: seq<Op>)
    requires (k <= 1 || limit < Mbits(1)) && NeverMoreThan(k, Create(limit, start), ops)
    ensures WithinCap(limit, Run(Create(limit, start), ops))
  {
    if k <= 1 {
      var usage := FreshMultipleBound(k, limit, start, ops);
      assert Multiple(1, Cap(limit)) == Multiple(0, Cap(limit)) + Cap(limit);
    } else {
      WeightlessRun(limit, Create(limit, start), ops);
    }
  }

  // ---------- What the usage counts ----------

  /** The bytes of the packets delivered. */
  function DeliveredBytes(os: seq<Outcome>): nat
  {
    SumOf(os, BytesOut)
  }

  function BytesOut(o: Outcome): nat
  {
    if o.Delivered? then o.packet.size else 0
  }

  /**
   After `ops` the window in force was opened at time `w`, by operation `j - 1` or by the creation at `start`:
   no later admission came a second or more after `w`, and the opening one did so after the window before it.
   */
  ghost predicate WindowSince(start: real, ops: seq<Op>, j: nat, w: real)
    decreases |ops|, 0
  {
    && j <= |ops|
    && (forall i :: j <= i < |ops| && ops[i].PutOp? ==> ops[i].now - w < 1.0)
    && if j == 0 then w == start
       else ops[j - 1].PutOp? && ops[j - 1].now == w && OpensAfter(start, ops[..j - 1], w)
  }

  ghost predicate OpensAfter(start: real, ops: seq<Op>, w: real)
    decreases |ops|, 1
  {
    exists i: nat, u: real :: WindowSince(start, ops, i, u) && w - u >= 1.0
  }

  /** The tracker's window was opened at `w` and its usage is the bytes delivered since, in megabits. */
  ghost predicate Counts(t: Tracker, w: real, os: seq<Outcome>)
  {
    && t.windowStart == w && t.windowDuration == 1.0
    && 1_000_000.0 * t.usage == (8 * DeliveredBytes(os)) as real
  }

  lemma PutCounts(s: Sched, p: Packet, now: real, w: real, os: seq<Outcome>)
    requires Complete(s.queues) && Counts(s.tracker, w, os)
    ensures now - w >= 1.0 ==> Counts(Put(s, p, now).tracker, now, [])
    ensures now - w < 1.0 ==> Counts(Put(s, p, now).tracker, w, os + [OutcomeOf(s, PutOp(p, now))])
  {
    SumOfSnoc(os, OutcomeOf(s, PutOp(p, now)), BytesOut);
  }

  lemma TakeCounts(s: Sched, w: real, os: seq<Outcome>)
    requires Complete(s.queues) && Counts(s.tracker, w, os)
    ensures Counts(Take(s).tracker, w, os + [OutcomeOf(s, TakeOp)])
  {
    SumOfSnoc(os, OutcomeOf(s, TakeOp), BytesOut);
    if Taken(s).Some? {
      MegabitsOf(Taken(s).value.size);
    }
  }

  lemma MegabitsOf(bytes: nat)
    ensures 1_000_000.0 * Mbits(bytes) == (8 * bytes) as real
  {
  }

  lemma {:induction false} OutcomeCount(s: Sched, ops: seq<Op>)
    requires Complete(s.queues)
    ensures |Outcomes(s, ops)| == |ops|
  {
    if ops != [] {
      OutcomeCount(s, ops[..|ops| - 1]);
    }
  }

  /** In every run the usage is, in megabits, exactly the bytes delivered since the window in force was opened. */
  lemma {:induction false} UsageCountsWindow(limit: real, start: real, ops: seq<Op>) returns (j: nat, w: real)
    ensures WindowSince(start, ops, j, w)
    ensures |Outcomes(Create(limit, start), ops)| == |ops|
    ensures Counts(Run(Create(limit, start), ops).tracker, w, Outcomes(Create(limit, start), ops)[j..])
    decreases |ops|
  {
    var s := Create(limit, start);
    OutcomeCount(s, ops);
    if ops == [] {
      j, w := 0, start;
    } else {
      var init, op := ops[..|ops| - 1], ops[|ops| - 1];
      j, w := UsageCountsWindow(limit, start, init);
      var before, os := Run(s, init), Outcomes(s, init);
      assert (os + [OutcomeOf(before, op)])[j..] == os[j..] + [OutcomeOf(before, op)];
      match op
      case TakeOp =>
        TakeCounts(before, w, os[j..]);
        WindowGoesOn(start, ops, j, w);
      case PutOp(p, now) =>
        PutCounts(before, p, now, w, os[j..]);
        if now - w >= 1.0 {
          assert OpensAfter(start, init, now);
          j, w := |ops|, now;
        } else {
          WindowGoesOn(start, ops, j, w);
        }
    }
  }

  lemma WindowGoesOn(start: real, ops: seq<Op>, j: nat, w: real)
    requires ops != [] && WindowSince(start, ops[..|ops| - 1], j, w)
    requires ops[|ops| - 1].PutOp? ==> ops[|ops| - 1].now - w < 1.0
    ensures WindowSince(start, ops, j, w)
  {
    var init := ops[..|ops| - 1];
    assert forall i :: 0 <= i < |init| ==> init[i] == ops[i];
    if j > 0 {
      assert init[..j - 1] == ops[..j - 1];
    }
  }
}
