/**
 The connection monitor: a periodic health loop and any number of reconnection tasks that share two
 locked cells. Every critical section is one step and all steps interleave freely. A success seen by
 the loop does not cancel a sleeping task, so several tasks can be alive at once.
 */
module ConnectionMonitor {
  import opened Common

  datatype Status = Healthy | Degraded | Unstable | Disconnected | Reconnecting | Failed

  datatype Quality = Quality(status: Status, avgLatency: real, lossRate: real, stability: real,
                             successful: nat, failed: nat)

  datatype Reconnection = Reconnection(attempt: nat, nextDelay: nat, inProgress: bool)

  /** Delays are in whole milliseconds. */
  datatype Config = Config(enabled: bool, maxAttempts: nat, initialDelay: nat, maxDelay: nat,
                           multiplier: real, jitter: bool)

  // ---------- The critical sections on values ----------

  function Ratio(part: nat, total: nat): real
    requires total > 0
  {
    part as real / total as real
  }

  function Judged(stability: real, latency: real): Status
  {
    if stability >= 95.0 && latency < 100.0 then Healthy
    else if stability >= 80.0 && latency < 500.0 then Degraded
    else Unstable
  }

  function QualityAfterSuccess(q: Quality, latency: real): Quality
  {
    var avg := Smooth(q.avgLatency, latency);
    var stability := Ratio(q.successful + 1, q.successful + 1 + q.failed) * 100.0;
    Quality(Judged(stability, avg), avg, q.lossRate, stability, q.successful + 1, q.failed)
  }

  function QualityAfterFailure(q: Quality): Quality
  {
    var total := q.successful + q.failed + 1;
    Quality(Disconnected, q.avgLatency, Ratio(q.failed + 1, total), Ratio(q.successful, total) * 100.0,
            q.successful, q.failed + 1)
  }

  /** The loop resets the attempt only if a reconnection is in progress. */
  function StateAfterSuccess(c: Config, r: Reconnection): Reconnection
  {
    if r.inProgress then Reconnection(0, c.initialDelay, false) else r
  }

  /** Whether a failed health check starts a reconnection task. */
  predicate Triggers(c: Config, r: Reconnection)
  {
    c.enabled && !r.inProgress && r.attempt < c.maxAttempts
  }

  function StateAfterFailure(c: Config, r: Reconnection): Reconnection
  {
    if Triggers(c, r) then Reconnection(r.attempt + 1, r.nextDelay, true) else r
  }

  /**
   The exponential delay before the cap and jitter. For attempt 0 the exponent wraps to -1; `None` stands for
   the infinite or undefined result of dividing by zero.
   */
  function BaseDelay(c: Config, attempt: nat): Option<real>
  {
    if attempt >= 1 then Some(c.initialDelay as real * PowReal(c.multiplier, attempt - 1))
    else if c.multiplier == 0.0 then None
    else Some(c.initialDelay as real / c.multiplier)
  }

  /** The minimum with the largest delay, which also replaces an undefined value. */
  function CappedDelay(c: Config, attempt: nat): real
  {
    match BaseDelay(c, attempt)
    case None => c.maxDelay as real
    case Some(base) => if base < c.maxDelay as real then base else c.maxDelay as real
  }

  /** A cast of a float to an unsigned integer truncates and saturates at zero. */
  function Millis(x: real): nat
  {
    if x.Floor < 0 then 0 else x.Floor
  }

  // ---------- Tasks and steps ----------

  datatype Task =
    | Spawned
    | Computing(attempt: nat)   // has read the attempt, not yet stored the delay
    | Sleeping(attempt: nat)
    | Probing(attempt: nat)     // has set the status to Reconnecting
    | Succeeded(attempt: nat)   // has set the status to Healthy, not yet reset the state
    | GivingUp(attempt: nat)    // has set the status to Failed, not yet cleared the flag

  datatype Monitor = Monitor(quality: Quality, state: Reconnection, tasks: seq<Task>)

  datatype Step =
    | CheckOk(latency: real)
    | CheckFailed
    | ReadAttempt(task: nat)
    | Abort(task: nat)                          // with overflow checks `attempt - 1` panics for attempt 0
    | StoreDelay(task: nat, jitter: real)       // without them it wraps
    | Wake(task: nat)
    | ProbeOk(task: nat, latency: real)
    | ProbeFailed(task: nat, respawns: bool)    // spawning the next task may itself fail
    | ResetState(task: nat)
    | ClearFlag(task: nat)

  predicate Enabled(m: Monitor, e: Step)
  {
    if e.CheckOk? || e.CheckFailed? then true else
    && e.task < |m.tasks|
    && match e
       case ReadAttempt(i) => m.tasks[i].Spawned?
       case Abort(i) => m.tasks[i] == Computing(0)
       case StoreDelay(i, jitter) => m.tasks[i].Computing? && 0.8 <= jitter < 1.2
       case Wake(i) => m.tasks[i].Sleeping?
       case ProbeOk(i, _) => m.tasks[i].Probing?
       case ProbeFailed(i, _) => m.tasks[i].Probing?
       case ResetState(i) => m.tasks[i].Succeeded?
       case ClearFlag(i) => m.tasks[i].GivingUp?
  }

  /** The delay a task stores. */
  function DelayOf(c: Config, attempt: nat, jitter: real): nat
  {
    if c.jitter then Millis(CappedDelay(c, attempt) * jitter) else Millis(CappedDelay(c, attempt))
  }

  function Next(c: Config, m: Monitor, e: Step): Monitor
    requires Enabled(m, e)
  {
    match e
    case CheckOk(latency) =>
      m.(quality := QualityAfterSuccess(m.quality, latency), state := StateAfterSuccess(c, m.state))
    case CheckFailed =>
      Monitor(QualityAfterFailure(m.quality), StateAfterFailure(c, m.state),
              if Triggers(c, m.state) then m.tasks + [Spawned] else m.tasks)
    case ReadAttempt(i) => m.(tasks := m.tasks[i := Computing(m.state.attempt)])
    case Abort(i) => m.(tasks := Without(m.tasks, i))
    case StoreDelay(i, jitter) =>
      var a := m.tasks[i].attempt;
      m.(state := m.state.(nextDelay := DelayOf(c, a, jitter)), tasks := m.tasks[i := Sleeping(a)])
    case Wake(i) =>
      m.(quality := m.quality.(status := Reconnecting), tasks := m.tasks[i := Probing(m.tasks[i].attempt)])
    case ProbeOk(i, latency) =>
      m.(quality := m.quality.(status := Healthy, avgLatency := latency),
         tasks := m.tasks[i := Succeeded(m.tasks[i].attempt)])
    case ProbeFailed(i, respawns) =>
      if m.tasks[i].attempt >= c.maxAttempts then
        m.(quality := m.quality.(status := Failed), tasks := m.tasks[i := GivingUp(m.tasks[i].attempt)])
      else
        m.(tasks := if respawns then m.tasks[i := Spawned] else Without(m.tasks, i))
    case ResetState(i) => m.(state := Reconnection(0, c.initialDelay, false), tasks := Without(m.tasks, i))
    case ClearFlag(i) => m.(state := m.state.(inProgress := false), tasks := Without(m.tasks, i))
  }

  const INITIAL := Monitor(Quality(Disconnected, 0.0, 0.0, 0.0, 0, 0), Reconnection(0, 500, false), [])

  /** `xs` lists the states of a run from `m` that takes the steps `es`. */
  predicate IsRunFrom(c: Config, m: Monitor, es: seq<Step>, xs: seq<Monitor>)
  {
    && |xs| == |es| + 1
    && xs[0] == m
    && forall i :: 0 <= i < |es| ==> Follows(c, xs[i], es[i], xs[i + 1])
  }

  predicate IsExecution(c: Config, es: seq<Step>, xs: seq<Monitor>)
  {
    IsRunFrom(c, INITIAL, es, xs)
  }

  predicate Follows(c: Config, a: Monitor, e: Step, b: Monitor)
  {
    Enabled(a, e) && b == Next(c, a, e)
  }

  /** A run grows by one enabled step at its end, or at its start. */
  lemma Extend(c: Config, m: Monitor, es: seq<Step>, xs: seq<Monitor>, e: Step)
    returns (fs: seq<Step>, ys: seq<Monitor>)
    requires IsRunFrom(c, m, es, xs) && Enabled(xs[|es|], e)
    ensures fs == es + [e] && ys == xs + [Next(c, xs[|es|], e)]
    ensures IsRunFrom(c, m, fs, ys)
  {
    fs, ys := es + [e], xs + [Next(c, xs[|es|], e)];
    forall i | 0 <= i < |fs|
      ensures Follows(c, ys[i], fs[i], ys[i + 1])
    {
      assert i < |es| ==> Follows(c, xs[i], es[i], xs[i + 1]);
    }
  }

  lemma Prepend(c: Config, m: Monitor, e: Step, es: seq<Step>, xs: seq<Monitor>)
    returns (fs: seq<Step>, ys: seq<Monitor>)
    requires Enabled(m, e) && IsRunFrom(c, Next(c, m, e), es, xs)
    ensures fs == [e] + es && ys == [m] + xs
    ensures IsRunFrom(c, m, fs, ys)
  {
    fs, ys := [e] + es, [m] + xs;
    forall i | 0 <= i < |fs|
      ensures Follows(c, ys[i], fs[i], ys[i + 1])
    {
      assert i > 0 ==> Follows(c, xs[i - 1], es[i - 1], xs[i - 1 + 1]);
    }
  }

  // ---------- Safety of every interleaving ----------

  /** A task's own attempt number; a task that has not read it yet has none. */
  function Carried(t: Task): nat
  {
    if t.Spawned? then 0 else t.attempt
  }

  ghost predicate TasksSafe(c: Config, ts: seq<Task>)
  {
    forall i :: 0 <= i < |ts| ==> Carried(ts[i]) <= 1 && (ts[i].GivingUp? ==> c.maxAttempts == 1)
  }

  ghost predicate Safe(c: Config, m: Monitor)
  {
    && m.state.attempt <= 1
    && m.state.attempt <= c.maxAttempts
    && (m.state.inProgress ==> m.state.attempt == 1 && c.enabled)
    && (c.maxAttempts >= 2 && !m.state.inProgress ==> m.state.attempt == 0)
    && TasksSafe(c, m.tasks)
    && (!c.enabled || c.maxAttempts == 0 ==> m.tasks == [])
    && (m.quality.status == Failed ==> c.enabled && c.maxAttempts == 1)
  }

  lemma StepKeepsSafe(c: Config, m: Monitor, e: Step)
    requires Safe(c, m) && Enabled(m, e)
    ensures Safe(c, Next(c, m, e))
  {
    var n := Next(c, m, e);
    assert TasksSafe(c, n.tasks);
  }

  lemma {:induction false} AlwaysSafe(c: Config, es: seq<Step>, xs: seq<Monitor>, k: nat)
    requires IsExecution(c, es, xs) && k <= |es|
    ensures Safe(c, xs[k])
  {
    if k == 0 {
    } else {
      AlwaysSafe(c, es, xs, k - 1);
      assert Follows(c, xs[k - 1], es[k - 1], xs[k]);
      StepKeepsSafe(c, xs[k - 1], es[k - 1]);
    }
  }

  /**
   In every interleaving the attempt counter stays within `max_attempts`, and when at least two
   attempts are configured it is 1 exactly while a reconnection is in progress and 0 otherwise: it
   never counts beyond the first attempt.
   */
  lemma AttemptIsAFlag(c: Config, es: seq<Step>, xs: seq<Monitor>, k: nat)
    requires IsExecution(c, es, xs) && k <= |es|
    ensures xs[k].state.attempt <= c.maxAttempts
    ensures c.maxAttempts >= 2 ==>
              xs[k].state.attempt == (if xs[k].state.inProgress then 1 else 0)
    ensures c.maxAttempts >= 2 ==> xs[k].quality.status != Failed
  {
    AlwaysSafe(c, es, xs, k);
  }

  ghost predicate FailedReachable(c: Config)
  {
    exists es: seq<Step>, xs: seq<Monitor> :: IsExecution(c, es, xs) && xs[|es|].quality.status == Failed
  }

  /**
   The permanent-failure status is reachable exactly when reconnection is enabled with
   `max_attempts == 1`. With the default of five attempts exhaustion is never reported.
   */
  lemma FailedOnlyWithOneAttempt(c: Config)
    ensures FailedReachable(c) <==> c.enabled && c.maxAttempts == 1
  {
    if FailedReachable(c) {
      var es: seq<Step>, xs: seq<Monitor> :| IsExecution(c, es, xs) && xs[|es|].quality.status == Failed;
      AlwaysSafe(c, es, xs, |es|);
    }
    if c.enabled && c.maxAttempts == 1 {
      var es, xs := FailingRun(c);
      assert IsExecution(c, es, xs) && xs[|es|].quality.status == Failed;
    }
  }

  lemma FailingRun(c: Config) returns (es: seq<Step>, xs: seq<Monitor>)
    requires c.enabled && c.maxAttempts == 1
    ensures IsExecution(c, es, xs) && xs[|es|].quality.status == Failed
    ensures xs[|es|].tasks == [GivingUp(1)] && xs[|es|].state.attempt == 1
  {
    es, xs := ProbingRun(c);
    es, xs := Extend(c, INITIAL, es, xs, ProbeFailed(0, true));
  }

  /** The first reconnection task is about to probe the daemon. */
  lemma ProbingRun(c: Config) returns (es: seq<Step>, xs: seq<Monitor>)
    requires c.enabled && c.maxAttempts >= 1
    ensures IsExecution(c, es, xs)
    ensures xs[|es|].tasks == [Probing(1)] && xs[|es|].state.attempt == 1 && xs[|es|].state.inProgress
  {
    es, xs := Extend(c, INITIAL, [], [INITIAL], CheckFailed);
    assert xs[|es|].tasks == [Spawned];
    es, xs := Extend(c, INITIAL, es, xs, ReadAttempt(0));
    es, xs := Extend(c, INITIAL, es, xs, StoreDelay(0, 1.0));
    assert xs[|es|].tasks == [Sleeping(1)];
    es, xs := Extend(c, INITIAL, es, xs, Wake(0));
  }

  // ---------- The backoff ----------

  function Capped(c: Config, delay: real): real
  {
    if delay < c.maxDelay as real then delay else c.maxDelay as real
  }

  /**
   The exponential backoff has only two values: a task has read attempt 1, and computes the capped initial
   delay, or attempt 0, and computes the capped quotient of the initial delay and the multiplier.
   */
  lemma BackoffTakesTwoValues(c: Config, es: seq<Step>, xs: seq<Monitor>, k: nat, i: nat)
    requires IsExecution(c, es, xs) && k <= |es|
    requires i < |xs[k].tasks| && xs[k].tasks[i].Computing?
    ensures xs[k].tasks[i].attempt <= 1
    ensures xs[k].tasks[i].attempt == 1 ==> CappedDelay(c, 1) == Capped(c, c.initialDelay as real)
    ensures xs[k].tasks[i].attempt == 0 ==>
              CappedDelay(c, 0) == if c.multiplier == 0.0 then c.maxDelay as real
                                   else Capped(c, c.initialDelay as real / c.multiplier)
  {
    AlwaysSafe(c, es, xs, k);
    assert Carried(xs[k].tasks[i]) <= 1;
    assert PowReal(c.multiplier, 0) == 1.0;
  }

  ghost predicate ZeroReadReachable(c: Config)
  {
    exists es: seq<Step>, xs: seq<Monitor> :: IsExecution(c, es, xs) && xs[|es|].tasks == [Computing(0)]
  }

  /** A task can read attempt 0, after a success has reset it, whenever tasks are started at all. */
  lemma ZeroReadIfEnabled(c: Config)
    ensures ZeroReadReachable(c) <==> c.enabled && c.maxAttempts >= 1
  {
    if ZeroReadReachable(c) {
      var es: seq<Step>, xs: seq<Monitor> :| IsExecution(c, es, xs) && xs[|es|].tasks == [Computing(0)];
      AlwaysSafe(c, es, xs, |es|);
    }
    if c.enabled && c.maxAttempts >= 1 {
      var es, xs := Extend(c, INITIAL, [], [INITIAL], CheckFailed);
      es, xs := Extend(c, INITIAL, es, xs, CheckOk(0.0));
      assert xs[|es|].tasks == [Spawned] && xs[|es|].state.attempt == 0;
      es, xs := Extend(c, INITIAL, es, xs, ReadAttempt(0));
      assert xs[|es|].tasks == [Computing(0)];
    }
  }

  /** Some task comes to compute a delay above the capped initial one. */
  ghost predicate LongerDelayReachable(c: Config)
  {
    exists es: seq<Step>, xs: seq<Monitor>, i: nat ::
      IsExecution(c, es, xs) && i < |xs[|es|].tasks| && Longer(c, xs[|es|].tasks[i])
  }

  predicate Longer(c: Config, t: Task)
  {
    t.Computing? && CappedDelay(c, t.attempt) > Capped(c, c.initialDelay as real)
  }

  /** A multiplier below 1 makes the quotient the larger value, if the cap leaves room for it. */
  predicate Shrinking(c: Config)
  {
    && 0.0 <= c.multiplier < 1.0 && c.initialDelay < c.maxDelay
    && (c.multiplier == 0.0 || c.initialDelay > 0)
  }

  lemma QuotientOrder(x: real, m: real)
    requires x >= 0.0 && m != 0.0
    ensures x / m > x <==> 0.0 < m < 1.0 && x > 0.0
    ensures m < 0.0 ==> x / m <= 0.0
  {
    var q := x / m;
    assert q * m == x;
    if m > 0.0 {
      QuotientSide(q, m, x);
    } else if q > 0.0 {
      NegativeProduct(q, m);
    }
  }

  lemma QuotientSide(q: real, m: real, x: real)
    requires m > 0.0 && x >= 0.0 && q * m == x
    ensures q > x <==> m < 1.0 && x > 0.0
  {
    var d, e := q - x, 1.0 - m;
    assert d * m == q * m - x * m && x * e == x - x * m;
    assert d * m == x * e;
    SignOfProduct(d, m);
    if m < 1.0 {
      SignOfProduct(x, e);
    } else {
      NonPositiveProduct(x, e);
    }
  }

  lemma NonPositiveProduct(a: real, b: real)
    requires a >= 0.0 && b <= 0.0
    ensures a * b <= 0.0
  {
  }

  lemma SignOfProduct(a: real, b: real)
    requires b > 0.0
    ensures a * b > 0.0 <==> a > 0.0
  {
  }

  lemma NegativeProduct(a: real, b: real)
    requires a > 0.0 && b < 0.0
    ensures a * b < 0.0
  {
  }

  lemma LongerIfShrinking(c: Config)
    ensures CappedDelay(c, 0) > Capped(c, c.initialDelay as real) <==> Shrinking(c)
  {
    if c.multiplier != 0.0 {
      QuotientOrder(c.initialDelay as real, c.multiplier);
    }
  }

  /**
   A delay above the capped initial one is reachable exactly for a multiplier below 1 and not negative with
   room below the cap; so with the usual multipliers the backoff never exceeds the initial delay.
   */
  lemma LongerDelayIff(c: Config)
    ensures LongerDelayReachable(c) <==> c.enabled && c.maxAttempts >= 1 && Shrinking(c)
  {
    LongerIfShrinking(c);
    if LongerDelayReachable(c) {
      var es: seq<Step>, xs: seq<Monitor>, i: nat :|
        IsExecution(c, es, xs) && i < |xs[|es|].tasks| && Longer(c, xs[|es|].tasks[i]);
      AlwaysSafe(c, es, xs, |es|);
      BackoffTakesTwoValues(c, es, xs, |es|, i);
    }
    ZeroReadIfEnabled(c);
    if c.enabled && c.maxAttempts >= 1 && Shrinking(c) {
      var es: seq<Step>, xs: seq<Monitor> :| IsExecution(c, es, xs) && xs[|es|].tasks == [Computing(0)];
      assert Longer(c, xs[|es|].tasks[0]);
    }
  }

  predicate TruncatesTo(stored: nat, x: real)
  {
    x - 1.0 < stored as real <= x
  }

  lemma MillisTruncates(x: real)
    requires x >= 0.0
    ensures TruncatesTo(Millis(x), x)
  {
  }

  lemma JitterRange(delay: real, jitter: real) returns (x: real)
    requires delay >= 0.0 && 0.8 <= jitter < 1.2
    ensures x == delay * jitter && 0.0 <= 0.8 * delay <= x <= 1.2 * delay
  {
    x := delay * jitter;
    var up, down := jitter - 0.8, 1.2 - jitter;
    NonPositiveProduct(delay, -up);
    NonPositiveProduct(delay, -down);
    assert delay * -up == 0.8 * delay - x && delay * -down == x - 1.2 * delay;
  }

  /**
   What a task stores is whole milliseconds, rounded down: of the delay, or with jitter of a value from 0.8 to
   1.2 times the delay. For a negative delay it is 0.
   */
  lemma StoredDelay(c: Config, m: Monitor, i: nat, jitter: real) returns (x: real)
    requires Enabled(m, StoreDelay(i, jitter))
    ensures var delay, stored := CappedDelay(c, m.tasks[i].attempt), Next(c, m, StoreDelay(i, jitter)).state.nextDelay;
            if delay < 0.0 then stored == 0 else
              TruncatesTo(stored, x) && if c.jitter then 0.8 * delay <= x <= 1.2 * delay else x == delay
  {
    var a := m.tasks[i].attempt;
    if CappedDelay(c, a) < 0.0 {
      NegativeDelay(c, a, jitter);
      x := 0.0;
    } else {
      x := TruncatedDelay(c, a, jitter);
    }
  }

  lemma NegativeDelay(c: Config, attempt: nat, jitter: real)
    requires jitter > 0.0 && CappedDelay(c, attempt) < 0.0
    ensures DelayOf(c, attempt, jitter) == 0
  {
    var delay := CappedDelay(c, attempt);
    assert delay * jitter < 0.0;
  }

  lemma TruncatedDelay(c: Config, attempt: nat, jitter: real) returns (x: real)
    requires 0.8 <= jitter < 1.2 && CappedDelay(c, attempt) >= 0.0
    ensures TruncatesTo(DelayOf(c, attempt, jitter), x)
    ensures var delay := CappedDelay(c, attempt); if c.jitter then 0.8 * delay <= x <= 1.2 * delay else x == delay
  {
    var delay := CappedDelay(c, attempt);
    x := if c.jitter then delay * jitter else delay;
    if c.jitter {
      var product := JitterRange(delay, jitter);
    }
    MillisTruncates(x);
  }

  /** Step `e` sets the stored delay. */
  predicate SetsDelay(m: Monitor, e: Step)
  {
    e.StoreDelay? || Resets(m, e)
  }

  /** A reset by the task that reconnected, or by a successful check while one is in progress. */
  predicate Resets(m: Monitor, e: Step)
  {
    e.ResetState? || (e.CheckOk? && m.state.inProgress)
  }

  /**
   The stored delay is 500 until it is first set, the initial delay from a reset on, and otherwise whatever the
   last task to compute one stored.
   */
  lemma {:induction false} DelayKept(c: Config, es: seq<Step>, xs: seq<Monitor>, k: nat, j: nat)
    requires IsExecution(c, es, xs) && k <= j <= |es|
    requires forall i :: k <= i < j ==> !SetsDelay(xs[i], es[i])
    ensures k == 0 ==> xs[j].state.nextDelay == 500
    ensures k > 0 && Resets(xs[k - 1], es[k - 1]) ==> xs[j].state.nextDelay == c.initialDelay
    ensures xs[j].state.nextDelay == xs[k].state.nextDelay
    decreases j
  {
    if j > k {
      DelayKept(c, es, xs, k, j - 1);
      assert Follows(c, xs[j - 1], es[j - 1], xs[j - 1 + 1]);
    } else if k > 0 {
      assert Follows(c, xs[k - 1], es[k - 1], xs[k - 1 + 1]);
    }
  }

  // ---------- When reconnection stops for good ----------

  /** The attempts are used up and no reconnection is in progress. */
  predicate Spent(c: Config, m: Monitor)
  {
    m.state.attempt >= c.maxAttempts && !m.state.inProgress
  }

  predicate OnlyGivingUp(m: Monitor)
  {
    forall i :: 0 <= i < |m.tasks| ==> m.tasks[i].GivingUp?
  }

  /** Some continuation reaches a state in which a failed check starts a reconnection. */
  ghost predicate CanTrigger(c: Config, m: Monitor)
  {
    exists es: seq<Step>, xs: seq<Monitor> :: IsRunFrom(c, m, es, xs) && Triggers(c, xs[|es|].state)
  }

  lemma SpentStep(c: Config, m: Monitor, e: Step)
    requires Spent(c, m) && OnlyGivingUp(m) && Enabled(m, e)
    ensures OnlyGivingUp(Next(c, m, e)) && Next(c, m, e).state == m.state
  {
  }

  /** With nobody left but tasks that give up, the reconnection state never changes again. */
  lemma {:induction false} SpentForever(c: Config, m: Monitor, es: seq<Step>, xs: seq<Monitor>, k: nat)
    requires IsRunFrom(c, m, es, xs) && k <= |es|
    requires Spent(c, m) && OnlyGivingUp(m)
    ensures OnlyGivingUp(xs[k]) && xs[k].state == m.state
  {
    if k > 0 {
      SpentForever(c, m, es, xs, k - 1);
      assert Follows(c, xs[k - 1], es[k - 1], xs[k - 1 + 1]);
      SpentStep(c, xs[k - 1], es[k - 1]);
    }
  }

  /** How many steps a task still takes until it has reset the state. */
  function StepsToReset(t: Task): nat
  {
    match t
    case Spawned => 5
    case Computing(_) => 4
    case Sleeping(_) => 3
    case Probing(_) => 2
    case Succeeded(_) => 1
    case GivingUp(_) => 0
  }

  /** A task that does not give up can always go on to reset the state. */
  lemma {:induction false} Resume(c: Config, m: Monitor, i: nat) returns (es: seq<Step>, xs: seq<Monitor>)
    requires i < |m.tasks| && !m.tasks[i].GivingUp?
    ensures IsRunFrom(c, m, es, xs)
    ensures xs[|es|].state.attempt == 0 && !xs[|es|].state.inProgress
    decreases StepsToReset(m.tasks[i])
  {
    if m.tasks[i].Succeeded? {
      es, xs := Extend(c, m, [], [m], ResetState(i));
    } else {
      var e := match m.tasks[i]
        case Spawned => ReadAttempt(i)
        case Computing(_) => StoreDelay(i, 1.0)
        case Sleeping(_) => Wake(i)
        case Probing(_) => ProbeOk(i, 0.0);
      es, xs := Resume(c, Next(c, m, e), i);
      es, xs := Prepend(c, m, e, es, xs);
    }
  }

  /**
   Once the attempts are used up, a later reconnection is possible exactly when reconnection is enabled
   with at least one attempt and some task has not given up: only such a task can reset the counter.
   */
  lemma ResumesIffTaskLeft(c: Config, m: Monitor)
    requires Spent(c, m)
    ensures CanTrigger(c, m) <==> c.enabled && c.maxAttempts >= 1 && !OnlyGivingUp(m)
  {
    if CanTrigger(c, m) {
      var es: seq<Step>, xs: seq<Monitor> :| IsRunFrom(c, m, es, xs) && Triggers(c, xs[|es|].state);
      if OnlyGivingUp(m) {
        SpentForever(c, m, es, xs, |es|);
      }
    }
    if c.enabled && c.maxAttempts >= 1 && !OnlyGivingUp(m) {
      var i :| 0 <= i < |m.tasks| && !m.tasks[i].GivingUp?;
      var es, xs := Resume(c, m, i);
      assert IsRunFrom(c, m, es, xs) && Triggers(c, xs[|es|].state);
    }
  }

  /** A run that gives up with no task left: reconnection has stopped for good. */
  lemma ExhaustionReachable(c: Config) returns (es: seq<Step>, xs: seq<Monitor>)
    requires c.enabled && c.maxAttempts == 1
    ensures IsExecution(c, es, xs)
    ensures Spent(c, xs[|es|]) && xs[|es|].tasks == [] && !CanTrigger(c, xs[|es|])
  {
    es, xs := FailingRun(c);
    es, xs := Extend(c, INITIAL, es, xs, ClearFlag(0));
    ResumesIffTaskLeft(c, xs[|es|]);
  }

  /** A success between two failures leaves the first task alive beside the second. */
  lemma TwoTasksRun(c: Config) returns (es: seq<Step>, xs: seq<Monitor>)
    requires c.enabled && c.maxAttempts == 1
    ensures IsExecution(c, es, xs)
    ensures xs[|es|].tasks == [Spawned, Spawned] && xs[|es|].state.attempt == 1
  {
    es, xs := Extend(c, INITIAL, [], [INITIAL], CheckFailed);
    es, xs := Extend(c, INITIAL, es, xs, CheckOk(0.0));
    es, xs := Extend(c, INITIAL, es, xs, CheckFailed);
  }

  /** A run that gives up the same way while a second task is alive: reconnection can resume. */
  lemma ResumableReachable(c: Config) returns (es: seq<Step>, xs: seq<Monitor>)
    requires c.enabled && c.maxAttempts == 1
    ensures IsExecution(c, es, xs)
    ensures Spent(c, xs[|es|]) && xs[|es|].state.attempt == 1 && CanTrigger(c, xs[|es|])
  {
    es, xs := TwoTasksRun(c);
    es, xs := Extend(c, INITIAL, es, xs, ReadAttempt(0));
    es, xs := Extend(c, INITIAL, es, xs, StoreDelay(0, 1.0));
    assert xs[|es|].tasks == [Sleeping(1), Spawned];
    es, xs := Extend(c, INITIAL, es, xs, Wake(0));
    es, xs := Extend(c, INITIAL, es, xs, ProbeFailed(0, true));
    assert xs[|es|].tasks == [GivingUp(1), Spawned];
    es, xs := Extend(c, INITIAL, es, xs, ClearFlag(0));
    assert xs[|es|].tasks == [Spawned];
    ResumesIffTaskLeft(c, xs[|es|]);
  }

  // ---------- When the flag is left set ----------

  /** A task that will see the reconnection through unless the flag is cleared first. */
  predicate Armed(t: Task)
  {
    t.Spawned? || Carried(t) >= 1
  }

  ghost predicate Attended(m: Monitor)
  {
    m.state.inProgress ==> exists i :: 0 <= i < |m.tasks| && Armed(m.tasks[i])
  }

  lemma StepKeepsAttended(c: Config, m: Monitor, e: Step)
    requires Safe(c, m) && Attended(m) && Enabled(m, e)
    requires e.ProbeFailed? ==> e.respawns || c.maxAttempts < 2
    ensures Attended(Next(c, m, e))
  {
    var n := Next(c, m, e);
    if n.state.inProgress {
      if e.CheckFailed? && Triggers(c, m.state) {
        assert Armed(n.tasks[|m.tasks|]);
      } else {
        var i :| 0 <= i < |m.tasks| && Armed(m.tasks[i]);
        if |n.tasks| < |m.tasks| {
          assert i != e.task;
          var j := if i < e.task then i else i - 1;
          assert n.tasks[j] == m.tasks[i];
        } else {
          assert Armed(n.tasks[i]);
        }
      }
    }
  }

  /**
   If failed tasks can always spawn their successor, or if less than two attempts are configured, then
   while `in_progress` holds some task is alive that did not lose its attempt number, so the flag is
   never left set with nobody to clear it.
   */
  lemma {:induction false} NeverAbandoned(c: Config, es: seq<Step>, xs: seq<Monitor>, k: nat)
    requires IsExecution(c, es, xs) && k <= |es|
    requires forall j :: 0 <= j < k && es[j].ProbeFailed? ==> es[j].respawns || c.maxAttempts < 2
    ensures Attended(xs[k])
  {
    if k == 0 {
    } else {
      NeverAbandoned(c, es, xs, k - 1);
      AlwaysSafe(c, es, xs, k - 1);
      assert Follows(c, xs[k - 1], es[k - 1], xs[k]);
      StepKeepsAttended(c, xs[k - 1], es[k - 1]);
    }
  }

  /** The flag is set and no task is alive. */
  predicate Abandoned(m: Monitor)
  {
    m.state.inProgress && m.tasks == []
  }

  ghost predicate AbandonmentReachable(c: Config)
  {
    exists es: seq<Step>, xs: seq<Monitor> :: IsExecution(c, es, xs) && Abandoned(xs[|es|])
  }

  /** The flag can be left set with no task alive exactly when at least two attempts are enabled. */
  lemma AbandonedOnlyWithTwoAttempts(c: Config)
    ensures AbandonmentReachable(c) <==> c.enabled && c.maxAttempts >= 2
  {
    if AbandonmentReachable(c) {
      var es: seq<Step>, xs: seq<Monitor> :| IsExecution(c, es, xs) && Abandoned(xs[|es|]);
      AlwaysSafe(c, es, xs, |es|);
      if c.maxAttempts < 2 {
        NeverAbandoned(c, es, xs, |es|);
      }
    }
    if c.enabled && c.maxAttempts >= 2 {
      var es, xs := ProbingRun(c);
      es, xs := Extend(c, INITIAL, es, xs, ProbeFailed(0, false));
      assert IsExecution(c, es, xs) && Abandoned(xs[|es|]);
    }
  }

  lemma AbandonedStep(c: Config, m: Monitor, e: Step)
    requires Abandoned(m) && Enabled(m, e)
    ensures Next(c, m, e).tasks == []
    ensures if e.CheckOk? then Next(c, m, e).state == Reconnection(0, c.initialDelay, false)
            else Next(c, m, e).state == m.state
  {
  }

  /** From then on nothing changes in the reconnection state before the first successful check. */
  lemma {:induction false} AbandonedUntilSuccess(c: Config, m: Monitor, es: seq<Step>, xs: seq<Monitor>, k: nat)
    requires IsRunFrom(c, m, es, xs) && k <= |es| && Abandoned(m)
    requires forall j :: 0 <= j < k ==> !es[j].CheckOk?
    ensures xs[k].state == m.state && xs[k].tasks == []
  {
    if k > 0 {
      AbandonedUntilSuccess(c, m, es, xs, k - 1);
      assert Follows(c, xs[k - 1], es[k - 1], xs[k - 1 + 1]);
      AbandonedStep(c, xs[k - 1], es[k - 1]);
    }
  }

  /** And that check clears the flag. */
  lemma SuccessReleases(c: Config, m: Monitor, es: seq<Step>, xs: seq<Monitor>, k: nat)
    requires IsRunFrom(c, m, es, xs) && k < |es| && Abandoned(m)
    requires forall j :: 0 <= j < k ==> !es[j].CheckOk?
    ensures xs[k + 1].state.inProgress <==> !es[k].CheckOk?
  {
    AbandonedUntilSuccess(c, m, es, xs, k);
    assert Follows(c, xs[k], es[k], xs[k + 1]);
    AbandonedStep(c, xs[k], es[k]);
  }

  // ---------- The quality counters ----------

  /** The rates are in range and, once there was a check, stability is the exact success percentage. */
  ghost predicate Scored(q: Quality)
  {
    && 0.0 <= q.lossRate <= 1.0
    && 0.0 <= q.stability <= 100.0
    && (q.successful + q.failed > 0 ==> q.stability * (q.successful + q.failed) as real == 100.0 * q.successful as real)
  }

  lemma RatioMeans(part: nat, total: nat)
    requires part <= total && total > 0
    ensures 0.0 <= Ratio(part, total) <= 1.0
    ensures Ratio(part, total) * total as real == part as real
    ensures Ratio(part, total) * 100.0 * total as real == 100.0 * part as real
  {
    RatioBounds(part, total);
    var q := Ratio(part, total);
    assert q * total as real == part as real;
    assert q * 100.0 * total as real == 100.0 * (q * total as real);
  }

  lemma SuccessKeepsScored(q: Quality, latency: real)
    requires Scored(q)
    ensures Scored(QualityAfterSuccess(q, latency))
  {
    RatioMeans(q.successful + 1, q.successful + 1 + q.failed);
  }

  lemma FailureKeepsScored(q: Quality)
    requires Scored(q)
    ensures Scored(QualityAfterFailure(q))
    ensures QualityAfterFailure(q).lossRate * (q.successful + q.failed + 1) as real == (q.failed + 1) as real
  {
    RatioMeans(q.failed + 1, q.successful + q.failed + 1);
    RatioMeans(q.successful, q.successful + q.failed + 1);
  }

  lemma StepKeepsScored(c: Config, m: Monitor, e: Step)
    requires Scored(m.quality) && Enabled(m, e)
    ensures Scored(Next(c, m, e).quality)
  {
    if e.CheckOk? {
      SuccessKeepsScored(m.quality, e.latency);
    } else if e.CheckFailed? {
      FailureKeepsScored(m.quality);
    } else {
      var q := Next(c, m, e).quality;
      assert q.lossRate == m.quality.lossRate && q.stability == m.quality.stability;
    }
  }

  /** The numbers of successful and of failed checks among the first `k` steps. */
  function Successes(es: seq<Step>, k: nat): nat
    requires k <= |es|
  {
    if k == 0 then 0 else Successes(es, k - 1) + (if es[k - 1].CheckOk? then 1 else 0)
  }

  function Failures(es: seq<Step>, k: nat): nat
    requires k <= |es|
  {
    if k == 0 then 0 else Failures(es, k - 1) + (if es[k - 1].CheckFailed? then 1 else 0)
  }

  lemma {:induction false} AlwaysCounted(c: Config, es: seq<Step>, xs: seq<Monitor>, k: nat)
    requires IsExecution(c, es, xs) && k <= |es|
    ensures xs[k].quality.successful == Successes(es, k) && xs[k].quality.failed == Failures(es, k)
  {
    if k > 0 {
      AlwaysCounted(c, es, xs, k - 1);
      assert Follows(c, xs[k - 1], es[k - 1], xs[k - 1 + 1]);
    }
  }

  /** The counters count the checks, and the stability score is the exact success percentage of all of them. */
  lemma {:induction false} AlwaysScored(c: Config, es: seq<Step>, xs: seq<Monitor>, k: nat)
    requires IsExecution(c, es, xs) && k <= |es|
    ensures Scored(xs[k].quality)
    ensures xs[k].quality.successful == Successes(es, k) && xs[k].quality.failed == Failures(es, k)
  {
    AlwaysCounted(c, es, xs, k);
    if k > 0 {
      AlwaysScored(c, es, xs, k - 1);
      assert Follows(c, xs[k - 1], es[k - 1], xs[k - 1 + 1]);
      StepKeepsScored(c, xs[k - 1], es[k - 1]);
    }
  }

  predicate IsShare(rate: real, part: nat, total: nat)
  {
    rate * total as real == part as real
  }

  /** At the last failed check, step `j - 1`, the loss rate was the share of failed checks; 0 if there was none. */
  ghost predicate LossSince(es: seq<Step>, k: nat, j: nat, rate: real)
    requires k <= |es|
  {
    && j <= k
    && (forall i :: j <= i < k ==> !es[i].CheckFailed?)
    && if j == 0 then rate == 0.0
       else es[j - 1].CheckFailed? && IsShare(rate, Failures(es, j), Successes(es, j) + Failures(es, j))
  }

  lemma LossStep(c: Config, m: Monitor, e: Step)
    requires Scored(m.quality) && Enabled(m, e)
    ensures var q, n := m.quality, Next(c, m, e).quality;
            if e.CheckFailed? then IsShare(n.lossRate, q.failed + 1, q.successful + q.failed + 1)
            else n.lossRate == q.lossRate
  {
    if e.CheckFailed? {
      FailureKeepsScored(m.quality);
    }
  }

  /** The counters and the loss rate after `k` steps, the last failed check being step `j - 1`. */
  ghost predicate Accounted(es: seq<Step>, k: nat, j: nat, q: Quality)
    requires k <= |es|
  {
    && Scored(q)
    && q.successful == Successes(es, k) && q.failed == Failures(es, k)
    && LossSince(es, k, j, q.lossRate)
  }

  lemma {:induction false} LossRateIsShare(c: Config, es: seq<Step>, xs: seq<Monitor>, k: nat) returns (j: nat)
    requires IsExecution(c, es, xs) && k <= |es|
    ensures Accounted(es, k, j, xs[k].quality)
  {
    if k == 0 {
      j := 0;
      NoLossYet(es);
    } else {
      j := LossRateIsShare(c, es, xs, k - 1);
      j := LossAfter(c, es, xs, k, j);
    }
  }

  lemma NoLossYet(es: seq<Step>)
    ensures Accounted(es, 0, 0, INITIAL.quality)
  {
  }

  lemma LossAfter(c: Config, es: seq<Step>, xs: seq<Monitor>, k: nat, j: nat) returns (i: nat)
    requires IsExecution(c, es, xs) && 0 < k <= |es| && Accounted(es, k - 1, j, xs[k - 1].quality)
    ensures Accounted(es, k, i, xs[k].quality)
  {
    assert Follows(c, xs[k - 1], es[k - 1], xs[k - 1 + 1]);
    i := LossNext(c, es, k - 1, j, xs[k - 1], xs[k]);
  }

  lemma LossNext(c: Config, es: seq<Step>, k: nat, j: nat, m: Monitor, n: Monitor) returns (i: nat)
    requires k < |es| && Follows(c, m, es[k], n) && Accounted(es, k, j, m.quality)
    ensures Accounted(es, k + 1, i, n.quality)
  {
    StepKeepsScored(c, m, es[k]);
    LossStep(c, m, es[k]);
    if es[k].CheckFailed? {
      LossAtFailure(es, k, n.quality.lossRate);
      i := k + 1;
    } else {
      LossStays(es, k, j, n.quality.lossRate);
      i := j;
    }
  }

  lemma LossStays(es: seq<Step>, k: nat, j: nat, rate: real)
    requires k < |es| && LossSince(es, k, j, rate) && !es[k].CheckFailed?
    ensures LossSince(es, k + 1, j, rate)
  {
  }

  lemma LossAtFailure(es: seq<Step>, k: nat, rate: real)
    requires k < |es| && es[k].CheckFailed?
    requires IsShare(rate, Failures(es, k) + 1, Successes(es, k) + Failures(es, k) + 1)
    ensures LossSince(es, k + 1, k + 1, rate)
  {
    assert Successes(es, k + 1) == Successes(es, k) && Failures(es, k + 1) == Failures(es, k) + 1;
    SameShare(rate, Failures(es, k) + 1, Successes(es, k) + Failures(es, k) + 1,
              Failures(es, k + 1), Successes(es, k + 1) + Failures(es, k + 1));
  }

  lemma SameShare(rate: real, part: nat, total: nat, p: nat, t: nat)
    requires IsShare(rate, part, total) && part == p && total == t
    ensures IsShare(rate, p, t)
  {
  }

  lemma PercentAtLeast(stability: real, total: nat, successful: nat, percent: real)
    requires total > 0 && stability * total as real == 100.0 * successful as real
    ensures stability >= percent <==> 100.0 * successful as real >= percent * total as real
  {
    var d, t := stability - percent, total as real;
    assert d * t == 100.0 * successful as real - percent * t;
    SignOfProduct(d, t);
    SignOfProduct(-d, t);
    assert (-d) * t == -(d * t);
  }

  /**
   After a successful check the status follows from the counts and the latency: healthy from 95% of successes
   and below 100 ms, degraded from 80% and below 500 ms, unstable otherwise.
   */
  ghost predicate StatusFollows(status: Status, good: nat, bad: nat, latency: real)
  {
    && (status == Healthy <==> 20 * good >= 19 * (good + bad) && latency < 100.0)
    && (status == Degraded <==> status != Healthy && 5 * good >= 4 * (good + bad) && latency < 500.0)
    && (status == Unstable <==> status != Healthy && status != Degraded)
  }

  lemma StatusOfSuccess(q: Quality, latency: real)
    ensures var n := QualityAfterSuccess(q, latency); StatusFollows(n.status, n.successful, n.failed, n.avgLatency)
  {
    var n := QualityAfterSuccess(q, latency);
    var good, all := n.successful, n.successful + n.failed;
    RatioMeans(good, all);
    PercentAtLeast(n.stability, all, good, 95.0);
    PercentAtLeast(n.stability, all, good, 80.0);
  }

  lemma StatusAfterSuccess(c: Config, es: seq<Step>, xs: seq<Monitor>, k: nat)
    requires IsExecution(c, es, xs) && k < |es| && es[k].CheckOk?
    ensures var q := xs[k + 1].quality;
            StatusFollows(q.status, Successes(es, k + 1), Failures(es, k + 1), q.avgLatency)
  {
    assert Follows(c, xs[k], es[k], xs[k + 1]);
    AlwaysScored(c, es, xs, k + 1);
    StatusOfSuccess(xs[k].quality, es[k].latency);
  }

  predicate Samples(e: Step)
  {
    e.CheckOk? || e.ProbeOk?
  }

  /** The average latency stays within the latencies measured by checks and probes. */
  lemma {:induction false} LatencyWithinSamples(c: Config, es: seq<Step>, xs: seq<Monitor>, k: nat, lo: real, hi: real)
    requires IsExecution(c, es, xs) && k <= |es| && 0.0 <= lo
    requires forall i :: 0 <= i < k && Samples(es[i]) ==> lo <= es[i].latency <= hi
    ensures if forall i :: 0 <= i < k ==> !Samples(es[i]) then xs[k].quality.avgLatency == 0.0
            else lo <= xs[k].quality.avgLatency <= hi
  {
    if k > 0 {
      LatencyWithinSamples(c, es, xs, k - 1, lo, hi);
      assert Follows(c, xs[k - 1], es[k - 1], xs[k - 1 + 1]);
      var before, e := xs[k - 1].quality.avgLatency, es[k - 1];
      if e.CheckOk? {
        assert xs[k].quality.avgLatency == Smooth(before, e.latency);
      } else if !e.ProbeOk? {
        assert xs[k].quality.avgLatency == before;
      }
    }
  }

  /** The status that every kind of step leaves, apart from successful checks. */
  lemma StatusAfterStep(c: Config, es: seq<Step>, xs: seq<Monitor>, k: nat)
    requires IsExecution(c, es, xs) && k < |es| && !es[k].CheckOk?
    ensures var before, after := xs[k].quality.status, xs[k + 1].quality.status;
            match es[k]
            case CheckFailed => after == Disconnected
            case Wake(_) => after == Reconnecting
            case ProbeOk(_, _) => after == Healthy
            case ProbeFailed(i, _) => after == before || (after == Failed && xs[k + 1].tasks[i].GivingUp?)
            case _ => after == before
  {
    assert Follows(c, xs[k], es[k], xs[k + 1]);
  }

  // ---------- The shared cells ----------

  class SharedCells {
    const config: Config
    var quality: Quality
    var state: Reconnection

    constructor (config: Config)
      ensures this.config == config && Monitor(quality, state, []) == INITIAL
    {
      this.config := config;
      quality, state := Quality(Disconnected, 0.0, 0.0, 0.0, 0, 0), Reconnection(0, 500, false);
    }

    /** The health loop on a successful check. */
    method HealthCheckSucceeded(latency: real)
      modifies this
      ensures quality == QualityAfterSuccess(old(quality), latency)
      ensures state == StateAfterSuccess(config, old(state))
    {
      quality := quality.(successful := quality.successful + 1);
      if quality.avgLatency == 0.0 {
        quality := quality.(avgLatency := latency);
      } else {
        quality := quality.(avgLatency := quality.avgLatency * 0.8 + latency * 0.2);
      }
      var total := quality.successful + quality.failed;
      if total > 0 {
        quality := quality.(stability := Ratio(quality.successful, total) * 100.0);
      }
      quality := quality.(status := Judged(quality.stability, quality.avgLatency));
      if state.inProgress {
        state := Reconnection(0, config.initialDelay, false);
      }
    }

    /** The health loop on a failed check; tells whether a reconnection task is to be spawned. */
    method HealthCheckFailed() returns (spawn: bool)
      modifies this
      ensures quality == QualityAfterFailure(old(quality))
      ensures state == StateAfterFailure(config, old(state))
      ensures spawn <==> Triggers(config, old(state))
    {
      quality := quality.(failed := quality.failed + 1, status := Disconnected);
      var total := quality.successful + quality.failed;
      if total > 0 {
        quality := quality.(lossRate := Ratio(quality.failed, total));
        quality := quality.(stability := Ratio(quality.successful, total) * 100.0);
      }
      spawn := false;
      if config.enabled {
        if !state.inProgress && state.attempt < config.maxAttempts {
          state := state.(inProgress := true, attempt := state.attempt + 1);
          spawn := true;
        }
      }
    }

    // The critical sections of a reconnection task, each tied to the step it is.

    ghost predicate Holds(m: Monitor)
      reads this
    {
      quality == m.quality && state == m.state
    }

    /** Computes and stores the delay of the attempt number that was read. */
    method ComputeDelay(attempt: nat, jitter: real, ghost m: Monitor, ghost i: nat) returns (delay: nat)
      requires Holds(m) && Enabled(m, StoreDelay(i, jitter)) && m.tasks[i].attempt == attempt
      modifies this`state
      ensures Holds(Next(config, m, StoreDelay(i, jitter))) && delay == state.nextDelay
    {
      var base := BaseDelay(config, attempt);
      var capped := config.maxDelay as real;
      if base.Some? && base.value < capped {
        capped := base.value;
      }
      if config.jitter {
        delay := Millis(capped * jitter);
      } else {
        delay := Millis(capped);
      }
      state := state.(nextDelay := delay);
    }

    method BeginProbe(ghost m: Monitor, ghost i: nat)
      requires Holds(m) && Enabled(m, Wake(i))
      modifies this`quality
      ensures Holds(Next(config, m, Wake(i)))
    {
      quality := quality.(status := Reconnecting);
    }

    method ProbeSucceeded(latency: real, ghost m: Monitor, ghost i: nat)
      requires Holds(m) && Enabled(m, ProbeOk(i, latency))
      modifies this`quality
      ensures Holds(Next(config, m, ProbeOk(i, latency)))
    {
      quality := quality.(status := Healthy);
      quality := quality.(avgLatency := latency);
    }

    /** Tells whether this attempt gives up; otherwise a successor is spawned. */
    method ProbeRefused(attempt: nat, respawns: bool, ghost m: Monitor, ghost i: nat) returns (givesUp: bool)
      requires Holds(m) && Enabled(m, ProbeFailed(i, respawns)) && m.tasks[i].attempt == attempt
      modifies this`quality
      ensures Holds(Next(config, m, ProbeFailed(i, respawns)))
      ensures givesUp <==> attempt >= config.maxAttempts
    {
      givesUp := attempt >= config.maxAttempts;
      if givesUp {
        quality := quality.(status := Failed);
      }
    }

    method ResetReconnection(ghost m: Monitor, ghost i: nat)
      requires Holds(m) && Enabled(m, ResetState(i))
      modifies this`state
      ensures Holds(Next(config, m, ResetState(i)))
    {
      state := state.(inProgress := false, attempt := 0);
      state := state.(nextDelay := config.initialDelay);
    }

    method ClearInProgress(ghost m: Monitor, ghost i: nat)
      requires Holds(m) && Enabled(m, ClearFlag(i))
      modifies this`state
      ensures Holds(Next(config, m, ClearFlag(i)))
    {
      state := state.(inProgress := false);
    }
  }
}
