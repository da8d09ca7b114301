/**
 The network simulator as a concurrent machine. Sends and delivery loops are tasks that interleave
 freely; each critical section of the source is one step. A stopped simulator can be started again
 before its old delivery loop has looked at the running flag, so several loops may be alive.
 */
module Simulator {
  import opened Common
  import opened PacketScheduler
  import opened Bandwidth

  // ---------- Results and their two critical sections ----------

  datatype NodeStats = NodeStats(packetsSent: nat, bytesSent: nat, packetLossRate: real)

  datatype Results = Results(packetsSent: nat, packetsReceived: nat, packetsLost: nat, throughput: real,
                             nodes: map<NodeId, NodeStats>, durationSecs: nat)

  const NO_RESULTS := Results(0, 0, 0, 0.0, map[], 0)

  /** The critical section of `record_packet_loss`. */
  function LossRecorded(r: Results, p: Packet): Results
  {
    var lost := r.packetsLost + 1;
    var stats := if p.source in r.nodes then r.nodes[p.source] else NodeStats(0, 0, 0.0);
    var rate := lost as real / (r.packetsSent + lost) as real;
    r.(packetsLost := lost,
       nodes := r.nodes[p.source := NodeStats(stats.packetsSent + 1, stats.bytesSent + p.size, rate)])
  }

  /** The critical section that counts a delivery; the received bytes of a node are never set. */
  function DeliveryCounted(r: Results): Results
  {
    var throughput := if r.durationSecs == 0 then 0.0 else 0.0 / (r.durationSecs as real * 1_000_000.0);
    r.(packetsReceived := r.packetsReceived + 1, throughput := throughput)
  }

  // ---------- Tasks ----------

  /** A send that saw the running flag: not yet decided, about to be lost, or about to be scheduled. */
  datatype SendTask = Undecided(packet: Packet) | Losing(packet: Packet) | Admitting(packet: Packet)

  /** A delivery loop: before its flag check, before its pop, or holding a popped packet. */
  datatype LoopTask = AtGuard | AtPop | Holding(packet: Packet)

  datatype Partition = Partition(sideA: seq<NodeId>, sideB: seq<NodeId>, complete: bool)

  predicate Separates(p: Partition, source: NodeId, destination: NodeId)
  {
    && p.complete
    && ((source in p.sideA && destination in p.sideB) || (source in p.sideB && destination in p.sideA))
  }

  predicate IsPartitioned(ps: seq<Partition>, source: NodeId, destination: NodeId)
  {
    exists i :: 0 <= i < |ps| && Separates(ps[i], source, destination)
  }

  datatype Sim = Sim(running: bool, results: Results, sched: Sched, partitions: seq<Partition>,
                     sends: seq<SendTask>, loops: seq<LoopTask>)

  datatype Step =
    | Enter(packet: Packet)                 // a caller reads the running flag
    | Decide(task: nat, dropped: bool)      // the loss draw and the partition check
    | Lose(task: nat)                       // record_packet_loss
    | Admit(task: nat, now: real)           // schedule_packet
    | Start
    | Stop                                  // also the first half of reset
    | Clear                                 // the second half of reset
    | CheckFlag(loop: nat)
    | Pop(loop: nat)
    | Count(loop: nat)
    | Divide(partition: Partition)
    | SetLimit(limit: real)

  predicate Enabled(s: Sim, e: Step)
  {
    && Complete(s.sched.queues)
    && match e
       case Enter(_) => s.running
       case Decide(i, _) => i < |s.sends| && s.sends[i].Undecided?
       case Lose(i) => i < |s.sends| && s.sends[i].Losing?
       case Admit(i, _) => i < |s.sends| && s.sends[i].Admitting?
       case Start => !s.running
       case CheckFlag(i) => i < |s.loops| && s.loops[i].AtGuard?
       case Pop(i) => i < |s.loops| && s.loops[i].AtPop?
       case Count(i) => i < |s.loops| && s.loops[i].Holding?
       case _ => true
  }

  function Next(s: Sim, e: Step): Sim
    requires Enabled(s, e)
  {
    match e
    case Enter(p) => s.(sends := s.sends + [Undecided(p)])
    case Decide(i, dropped) =>
      var p := s.sends[i].packet;
      var lose := dropped || IsPartitioned(s.partitions, p.source, p.destination);
      s.(sends := s.sends[i := if lose then Losing(p) else Admitting(p)])
    case Lose(i) => s.(results := LossRecorded(s.results, s.sends[i].packet), sends := Without(s.sends, i))
    case Admit(i, now) => s.(sched := Put(s.sched, s.sends[i].packet, now), sends := Without(s.sends, i))
    case Start => s.(running := true, loops := s.loops + [AtGuard])
    case Stop => s.(running := false)
    case Clear => s.(results := NO_RESULTS, partitions := [])
    case CheckFlag(i) => s.(loops := if s.running then s.loops[i := AtPop] else Without(s.loops, i))
    case Pop(i) =>
      s.(sched := Take(s.sched),
         loops := s.loops[i := match Taken(s.sched) case Some(p) => Holding(p) case None => AtGuard])
    case Count(i) => s.(results := DeliveryCounted(s.results), loops := s.loops[i := AtGuard])
    case Divide(p) => s.(partitions := s.partitions + [p])
    case SetLimit(limit) => s.(sched := s.sched.(tracker := s.sched.tracker.(limit := limit)))
  }

  function Initial(limit: real, now: real): Sim
  {
    Sim(false, NO_RESULTS, Create(limit, now), [], [], [])
  }

  // ---------- Counting packets ----------

  /** How many packets pass a filter: all of them (`None`), or the copies of one packet. */
  function Tally(ps: seq<Packet>, f: Option<Packet>): nat
  {
    if ps == [] then 0 else Tally(ps[..|ps| - 1], f) + Hit(ps[|ps| - 1], f)
  }

  function Hit(p: Packet, f: Option<Packet>): nat
  {
    if f.None? || f.value == p then 1 else 0
  }

  lemma TallySnoc(ps: seq<Packet>, p: Packet, f: Option<Packet>)
    ensures Tally(ps + [p], f) == Tally(ps, f) + Hit(p, f)
  {
    assert (ps + [p])[..|ps|] == ps;
  }

  lemma {:induction false} TallyConcat(a: seq<Packet>, b: seq<Packet>, f: Option<Packet>)
    ensures Tally(a + b, f) == Tally(a, f) + Tally(b, f)
    decreases |b|
  {
    if b == [] {
      assert a + b == a;
    } else {
      var n := |b| - 1;
      TallyConcat(a, b[..n], f);
      assert a + b == (a + b[..n]) + [b[n]];
      TallySnoc(a + b[..n], b[n], f);
    }
  }

  lemma {:induction false} TallyAll(ps: seq<Packet>)
    ensures Tally(ps, None) == |ps|
  {
    if ps == [] {
    } else {
      TallyAll(ps[..|ps| - 1]);
    }
  }

  lemma {:induction false} TallyOne(ps: seq<Packet>, x: Packet)
    ensures Tally(ps, Some(x)) == multiset(ps)[x]
  {
    if ps == [] {
    } else {
      var n := |ps| - 1;
      TallyOne(ps[..n], x);
      assert ps == ps[..n] + [ps[n]];
    }
  }

  /** The packets carried by send tasks. */
  function InSends(ts: seq<SendTask>): seq<Packet>
  {
    seq(|ts|, i requires 0 <= i < |ts| => ts[i].packet)
  }

  /** The packet a loop holds, if any. */
  function Hand(t: LoopTask): seq<Packet>
  {
    if t.Holding? then [t.packet] else []
  }

  function InHand(ts: seq<LoopTask>): seq<Packet>
  {
    if ts == [] then [] else InHand(ts[..|ts| - 1]) + Hand(ts[|ts| - 1])
  }

  function InQueues(q: Queues): seq<Packet>
    requires Complete(q)
  {
    q[Critical] + q[High] + q[Normal] + q[Low]
  }

  lemma SendsSplit(ts: seq<SendTask>, i: nat, f: Option<Packet>)
    requires i < |ts|
    ensures Tally(InSends(ts), f) == Tally(InSends(Without(ts, i)), f) + Hit(ts[i].packet, f)
  {
    var a, b := InSends(ts[..i]), InSends(ts[i + 1..]);
    assert InSends(ts) == (a + [ts[i].packet]) + b;
    assert InSends(Without(ts, i)) == a + b;
    TallyConcat(a + [ts[i].packet], b, f);
    TallyConcat(a, b, f);
    TallySnoc(a, ts[i].packet, f);
  }

  lemma Associate(a: seq<Packet>, b: seq<Packet>, c: seq<Packet>)
    ensures (a + b) + c == a + (b + c)
  {
  }

  lemma InHandSnoc(ts: seq<LoopTask>, t: LoopTask)
    ensures InHand(ts + [t]) == InHand(ts) + Hand(t)
  {
    assert (ts + [t])[..|ts|] == ts;
  }

  lemma {:induction false} InHandConcat(a: seq<LoopTask>, b: seq<LoopTask>)
    ensures InHand(a + b) == InHand(a) + InHand(b)
    decreases |b|
  {
    if b == [] {
      assert a + b == a;
    } else {
      var init, last := b[..|b| - 1], b[|b| - 1];
      calc {
        InHand(a + b);
        { assert a + b == (a + init) + [last]; }
        InHand((a + init) + [last]);
        { InHandSnoc(a + init, last); }
        InHand(a + init) + Hand(last);
        { InHandConcat(a, init); }
        (InHand(a) + InHand(init)) + Hand(last);
        { Associate(InHand(a), InHand(init), Hand(last)); }
        InHand(a) + (InHand(init) + Hand(last));
        InHand(a) + InHand(b);
      }
    }
  }

  lemma LoopsSplit(ts: seq<LoopTask>, i: nat, f: Option<Packet>)
    requires i < |ts|
    ensures Tally(InHand(ts), f) == Tally(InHand(Without(ts, i)), f) + Tally(Hand(ts[i]), f)
  {
    var a, b := ts[..i], ts[i + 1..];
    assert ts == (a + [ts[i]]) + b;
    InHandConcat(a + [ts[i]], b);
    InHandConcat(a, b);
    assert (a + [ts[i]])[..i] == a;
    TallyConcat(InHand(a) + Hand(ts[i]), InHand(b), f);
    TallyConcat(InHand(a), Hand(ts[i]), f);
    TallyConcat(InHand(a), InHand(b), f);
  }

  lemma LoopsUpdate(ts: seq<LoopTask>, i: nat, t: LoopTask, f: Option<Packet>)
    requires i < |ts|
    ensures Tally(InHand(ts[i := t]), f) + Tally(Hand(ts[i]), f) == Tally(InHand(ts), f) + Tally(Hand(t), f)
  {
    LoopsSplit(ts, i, f);
    LoopsSplit(ts[i := t], i, f);
    assert Without(ts[i := t], i) == Without(ts, i);
  }

  lemma QueuesTally(q: Queues, f: Option<Packet>)
    requires Complete(q)
    ensures Tally(InQueues(q), f) == Tally(q[Critical], f) + Tally(q[High], f) + Tally(q[Normal], f) + Tally(q[Low], f)
  {
    TallyConcat(q[Critical], q[High], f);
    TallyConcat(q[Critical] + q[High], q[Normal], f);
    TallyConcat(q[Critical] + q[High] + q[Normal], q[Low], f);
  }

  lemma QueuesReplace(q: Queues, p: Priority, ps: seq<Packet>, f: Option<Packet>)
    requires Complete(q)
    ensures Complete(q[p := ps])
    ensures Tally(InQueues(q[p := ps]), f) + Tally(q[p], f) == Tally(InQueues(q), f) + Tally(ps, f)
  {
    QueuesTally(q, f);
    QueuesTally(q[p := ps], f);
    match p case Low => case Normal => case High => case Critical =>
  }

  lemma PutTally(s: Sched, p: Packet, now: real, f: Option<Packet>)
    requires Complete(s.queues)
    ensures Tally(InQueues(Put(s, p, now).queues), f) ==
            Tally(InQueues(s.queues), f) + (if Fits(Rolled(s.tracker, now), p.size) then Hit(p, f) else 0)
  {
    var ps := s.queues[p.priority];
    QueuesReplace(s.queues, p.priority, ps + [p], f);
    TallySnoc(ps, p, f);
  }

  lemma TakeTally(s: Sched, f: Option<Packet>)
    requires Complete(s.queues)
    ensures Tally(InQueues(s.queues), f) ==
            Tally(InQueues(Take(s).queues), f) + (if Taken(s).Some? then Hit(Taken(s).value, f) else 0)
  {
    if Source(s.queues).Some? {
      var p := Source(s.queues).value;
      var ps := s.queues[p];
      assert ps == [ps[0]] + ps[1..];
      TallyConcat([ps[0]], ps[1..], f);
      TallySnoc([], ps[0], f);
      assert [] + [ps[0]] == [ps[0]];
      QueuesReplace(s.queues, p, ps[1..], f);
    }
  }

  // ---------- What a run has done so far ----------

  /** History of a run; the `Since` fields and `backlog` restart at every `Clear`. */
  datatype History = History(entered: seq<Packet>, lost: seq<Packet>, rejected: seq<Packet>,
                             admitted: seq<Packet>, counted: seq<Packet>, lostSince: seq<Packet>,
                             admittedSince: seq<Packet>, countedSince: seq<Packet>, backlog: seq<Packet>)

  const NO_HISTORY := History([], [], [], [], [], [], [], [], [])

  function Record(h: History, s: Sim, e: Step): History
    requires Enabled(s, e)
  {
    match e
    case Enter(p) => h.(entered := h.entered + [p])
    case Lose(i) =>
      var p := s.sends[i].packet;
      h.(lost := h.lost + [p], lostSince := h.lostSince + [p])
    case Admit(i, now) =>
      var p := s.sends[i].packet;
      if Fits(Rolled(s.sched.tracker, now), p.size)
      then h.(admitted := h.admitted + [p], admittedSince := h.admittedSince + [p])
      else h.(rejected := h.rejected + [p])
    case Count(i) =>
      var p := s.loops[i].packet;
      h.(counted := h.counted + [p], countedSince := h.countedSince + [p])
    case Clear =>
      h.(lostSince := [], admittedSince := [], countedSince := [],
         backlog := InHand(s.loops) + InQueues(s.sched.queues))
    case _ => h
  }

  /** Every packet that entered is in exactly one place, and so is every admitted packet. */
  ghost predicate Conserved(s: Sim, h: History, f: Option<Packet>)
  {
    && Complete(s.sched.queues)
    && Tally(h.entered, f) ==
       Tally(h.lost, f) + Tally(h.rejected, f) + Tally(h.admitted, f) + Tally(InSends(s.sends), f)
    && Tally(h.admitted, f) == Tally(h.counted, f) + Tally(InHand(s.loops), f) + Tally(InQueues(s.sched.queues), f)
    && Tally(h.countedSince, f) + Tally(InHand(s.loops), f) + Tally(InQueues(s.sched.queues), f)
       == Tally(h.admittedSince, f) + Tally(h.backlog, f)
  }

  lemma LoseConserves(s: Sim, h: History, i: nat, f: Option<Packet>)
    requires Conserved(s, h, f) && Enabled(s, Lose(i))
    ensures Conserved(Next(s, Lose(i)), Record(h, s, Lose(i)), f)
  {
    SendsSplit(s.sends, i, f);
    TallySnoc(h.lost, s.sends[i].packet, f);
  }

  lemma AdmitConserves(s: Sim, h: History, i: nat, now: real, f: Option<Packet>)
    requires Conserved(s, h, f) && Enabled(s, Admit(i, now))
    ensures Conserved(Next(s, Admit(i, now)), Record(h, s, Admit(i, now)), f)
  {
    var p := s.sends[i].packet;
    SendsSplit(s.sends, i, f);
    TallySnoc(h.admitted, p, f);
    TallySnoc(h.admittedSince, p, f);
    TallySnoc(h.rejected, p, f);
    PutTally(s.sched, p, now, f);
  }

  lemma CheckFlagConserves(s: Sim, h: History, i: nat, f: Option<Packet>)
    requires Conserved(s, h, f) && Enabled(s, CheckFlag(i))
    ensures Conserved(Next(s, CheckFlag(i)), h, f)
  {
    HandTally(s.loops[i], f);
    HandTally(AtPop, f);
    if s.running {
      LoopsUpdate(s.loops, i, AtPop, f);
    } else {
      LoopsSplit(s.loops, i, f);
    }
  }

  lemma PopConserves(s: Sim, h: History, i: nat, f: Option<Packet>)
    requires Conserved(s, h, f) && Enabled(s, Pop(i))
    ensures Conserved(Next(s, Pop(i)), h, f)
  {
    var t := match Taken(s.sched) case Some(p) => Holding(p) case None => AtGuard;
    TakeTally(s.sched, f);
    LoopsUpdate(s.loops, i, t, f);
    HandTally(t, f);
    HandTally(s.loops[i], f);
  }

  lemma CountConserves(s: Sim, h: History, i: nat, f: Option<Packet>)
    requires Conserved(s, h, f) && Enabled(s, Count(i))
    ensures Conserved(Next(s, Count(i)), Record(h, s, Count(i)), f)
  {
    var p := s.loops[i].packet;
    LoopsUpdate(s.loops, i, AtGuard, f);
    HandTally(s.loops[i], f);
    HandTally(AtGuard, f);
    TallySnoc(h.counted, p, f);
    TallySnoc(h.countedSince, p, f);
  }

  lemma HandTally(t: LoopTask, f: Option<Packet>)
    ensures Tally(Hand(t), f) == if t.Holding? then Hit(t.packet, f) else 0
  {
    if t.Holding? {
      assert [t.packet][..0] == [];
    }
  }

  lemma CallerConserves(s: Sim, h: History, e: Step, f: Option<Packet>)
    requires Conserved(s, h, f) && Enabled(s, e) && (e.Enter? || e.Decide?)
    ensures Conserved(Next(s, e), Record(h, s, e), f)
  {
    if e.Decide? {
      assert InSends(Next(s, e).sends) == InSends(s.sends);
    } else {
      assert InSends(Next(s, e).sends) == InSends(s.sends) + [e.packet];
      TallySnoc(InSends(s.sends), e.packet, f);
      TallySnoc(h.entered, e.packet, f);
    }
  }

  lemma ControlConserves(s: Sim, h: History, e: Step, f: Option<Packet>)
    requires Conserved(s, h, f) && Enabled(s, e) && (e.Start? || e.Clear?)
    ensures Conserved(Next(s, e), Record(h, s, e), f)
  {
    if e.Start? {
      assert Next(s, e).loops[..|s.loops|] == s.loops;
      assert InHand(Next(s, e).loops) == InHand(s.loops) + [] == InHand(s.loops);
    } else {
      TallyConcat(InHand(s.loops), InQueues(s.sched.queues), f);
    }
  }

  lemma StepConserves(s: Sim, h: History, e: Step, f: Option<Packet>)
    requires Conserved(s, h, f) && Enabled(s, e)
    ensures Conserved(Next(s, e), Record(h, s, e), f)
  {
    if e.Lose? {
      LoseConserves(s, h, e.task, f);
    } else if e.Admit? {
      AdmitConserves(s, h, e.task, e.now, f);
    } else if e.CheckFlag? {
      CheckFlagConserves(s, h, e.loop, f);
    } else if e.Pop? {
      PopConserves(s, h, e.loop, f);
    } else if e.Count? {
      CountConserves(s, h, e.loop, f);
    } else if e.Decide? || e.Enter? {
      CallerConserves(s, h, e, f);
    } else if e.Start? || e.Clear? {
      ControlConserves(s, h, e, f);
    }
  }

  // ---------- The result counters ----------

  /** Losses of one source node, and their bytes. */
  function LossesOf(ps: seq<Packet>, n: NodeId): nat
  {
    if ps == [] then 0 else
      LossesOf(ps[..|ps| - 1], n) + (if ps[|ps| - 1].source == n then 1 else 0)
  }

  function BytesOf(ps: seq<Packet>, n: NodeId): nat
  {
    if ps == [] then 0 else
      BytesOf(ps[..|ps| - 1], n) + (if ps[|ps| - 1].source == n then ps[|ps| - 1].size else 0)
  }

  function SentBy(nodes: map<NodeId, NodeStats>): map<NodeId, int>
  {
    map n | n in nodes :: nodes[n].packetsSent
  }

  ghost predicate NodeExact(nodes: map<NodeId, NodeStats>, lost: seq<Packet>, n: NodeId)
  {
    if n in nodes
    then nodes[n].packetsSent == LossesOf(lost, n) && nodes[n].bytesSent == BytesOf(lost, n)
    else LossesOf(lost, n) == 0 && BytesOf(lost, n) == 0
  }

  /**
   Per-node counters describe exactly the losses since the last reset. Two fields that look live
   never move (`packetsSent` and the duration), so every recorded loss rate is 1 and the throughput
   stays 0.
   */
  ghost predicate ResultsExact(r: Results, lost: seq<Packet>, counted: seq<Packet>)
  {
    && r.packetsReceived == |counted|
    && r.packetsLost == |lost|
    && Sum(SentBy(r.nodes)) == |lost|
    && (forall n :: NodeExact(r.nodes, lost, n))
    && r.packetsSent == 0 && r.durationSecs == 0 && r.throughput == 0.0
    && forall n :: n in r.nodes ==> r.nodes[n].packetLossRate == 1.0
  }

  lemma LossKeepsNode(r: Results, lost: seq<Packet>, p: Packet, n: NodeId)
    requires NodeExact(r.nodes, lost, n)
    ensures NodeExact(LossRecorded(r, p).nodes, lost + [p], n)
  {
    assert (lost + [p])[..|lost|] == lost;
  }

  lemma LossRates(r: Results, p: Packet)
    requires r.packetsSent == 0
    requires forall n :: n in r.nodes ==> r.nodes[n].packetLossRate == 1.0
    ensures forall n :: n in LossRecorded(r, p).nodes ==> LossRecorded(r, p).nodes[n].packetLossRate == 1.0
  {
    var lost := r.packetsLost + 1;
    assert lost as real / (0 + lost) as real == 1.0;
  }

  lemma LossKeepsExact(r: Results, lost: seq<Packet>, counted: seq<Packet>, p: Packet)
    requires ResultsExact(r, lost, counted)
    ensures ResultsExact(LossRecorded(r, p), lost + [p], counted)
  {
    var t := LossRecorded(r, p);
    LossRates(r, p);
    assert NodeExact(r.nodes, lost, p.source);
    forall n
      ensures NodeExact(t.nodes, lost + [p], n)
    {
      assert NodeExact(r.nodes, lost, n);
      LossKeepsNode(r, lost, p, n);
    }
    var stats := t.nodes[p.source];
    SumUpdate(SentBy(r.nodes), p.source, stats.packetsSent);
    assert SentBy(t.nodes) == SentBy(r.nodes)[p.source := stats.packetsSent];
  }

  lemma NothingExact()
    ensures ResultsExact(NO_RESULTS, [], [])
  {
    SumConstant(SentBy(NO_RESULTS.nodes), 0);
  }

  lemma StepKeepsExact(s: Sim, h: History, e: Step)
    requires ResultsExact(s.results, h.lostSince, h.countedSince) && Enabled(s, e)
    ensures ResultsExact(Next(s, e).results, Record(h, s, e).lostSince, Record(h, s, e).countedSince)
  {
    if e.Lose? {
      LossKeepsExact(s.results, h.lostSince, h.countedSince, s.sends[e.task].packet);
    } else if e.Clear? {
      NothingExact();
    }
  }

  // ---------- Every interleaving ----------

  datatype Execution = Execution(sim: Sim, history: History)

  predicate Follows(a: Execution, e: Step, b: Execution)
  {
    Enabled(a.sim, e) && b == Execution(Next(a.sim, e), Record(a.history, a.sim, e))
  }

  /** `xs` lists the states of an execution that takes the steps `es`. */
  predicate IsExecution(limit: real, now: real, es: seq<Step>, xs: seq<Execution>)
  {
    && |xs| == |es| + 1
    && xs[0] == Execution(Initial(limit, now), NO_HISTORY)
    && forall i :: 0 <= i < |es| ==> Follows(xs[i], es[i], xs[i + 1])
  }

  lemma StepKeepsAccounts(a: Execution, e: Step, b: Execution, f: Option<Packet>)
    requires Follows(a, e, b) && Conserved(a.sim, a.history, f)
    requires ResultsExact(a.sim.results, a.history.lostSince, a.history.countedSince)
    ensures Conserved(b.sim, b.history, f)
    ensures ResultsExact(b.sim.results, b.history.lostSince, b.history.countedSince)
  {
    StepConserves(a.sim, a.history, e, f);
    StepKeepsExact(a.sim, a.history, e);
  }

  /**
   Conservation over every interleaving of any number of senders and delivery loops with start, stop
   and reset: each send made while running is lost, rejected, admitted or still in progress, and only
   one of these; each admitted packet is counted, in a loop's hand or queued, and only one of these;
   and since the last reset the same holds of what reset left behind plus what was admitted later.
   */
  lemma {:induction false} Conservation(limit: real, now: real, es: seq<Step>, xs: seq<Execution>, k: nat,
                                        f: Option<Packet>)
    requires IsExecution(limit, now, es, xs) && k <= |es|
    ensures Conserved(xs[k].sim, xs[k].history, f)
    ensures ResultsExact(xs[k].sim.results, xs[k].history.lostSince, xs[k].history.countedSince)
  {
    if k == 0 {
      NothingExact();
    } else {
      Conservation(limit, now, es, xs, k - 1, f);
      assert Follows(xs[k - 1], es[k - 1], xs[k]);
      StepKeepsAccounts(xs[k - 1], es[k - 1], xs[k], f);
    }
  }

  /**
   The counting form. Received packets, packets in hand and queued packets add up to the packets
   admitted since the last reset plus the backlog at that reset; and the per-node send counters add
   up to the losses, since only losses are recorded there.
   */
  lemma ReceivedBalance(limit: real, now: real, es: seq<Step>, xs: seq<Execution>, k: nat)
    requires IsExecution(limit, now, es, xs) && k <= |es|
    ensures var s, h := xs[k].sim, xs[k].history;
            && Complete(s.sched.queues)
            && s.results.packetsReceived + |InHand(s.loops)| + Queued(s.sched.queues) == |h.admittedSince| + |h.backlog|
            && Sum(SentBy(s.results.nodes)) == s.results.packetsLost == |h.lostSince|
  {
    var s, h := xs[k].sim, xs[k].history;
    Conservation(limit, now, es, xs, k, None);
    TallyAll(h.countedSince);
    TallyAll(InHand(s.loops));
    TallyAll(InQueues(s.sched.queues));
    TallyAll(h.admittedSince);
    TallyAll(h.backlog);
  }

  /** Once nothing is in progress, every send has had exactly one outcome. */
  lemma QuiescentOutcomes(limit: real, now: real, es: seq<Step>, xs: seq<Execution>, k: nat)
    requires IsExecution(limit, now, es, xs) && k <= |es|
    requires xs[k].sim.sends == [] && InHand(xs[k].sim.loops) == []
    requires Complete(xs[k].sim.sched.queues) && InQueues(xs[k].sim.sched.queues) == []
    ensures var h := xs[k].history;
            multiset(h.entered) == multiset(h.lost) + multiset(h.rejected) + multiset(h.counted)
  {
    var h := xs[k].history;
    forall x: Packet
      ensures multiset(h.entered)[x] == multiset(h.lost)[x] + multiset(h.rejected)[x] + multiset(h.counted)[x]
    {
      Conservation(limit, now, es, xs, k, Some(x));
      TallyOne(h.entered, x);
      TallyOne(h.lost, x);
      TallyOne(h.rejected, x);
      TallyOne(h.counted, x);
    }
  }

  // ---------- After a stop ----------

  /** A loop that is past its flag check will still deliver at most one packet. */
  function PastGuard(t: LoopTask): nat
  {
    if t.AtGuard? then 0 else 1
  }

  function StillActive(ts: seq<LoopTask>): nat
  {
    SumOf(ts, PastGuard)
  }

  lemma ActiveUpdate(ts: seq<LoopTask>, i: nat, t: LoopTask)
    requires i < |ts|
    ensures StillActive(ts[i := t]) + PastGuard(ts[i]) == StillActive(ts) + PastGuard(t)
    ensures StillActive(Without(ts, i)) + PastGuard(ts[i]) == StillActive(ts)
  {
    SumOfAround(ts, i, PastGuard);
    SumOfAround(ts[i := t], i, PastGuard);
    assert Without(ts[i := t], i) == Without(ts, i);
  }

  lemma StoppedStep(a: Execution, e: Step, b: Execution)
    requires Follows(a, e, b) && !a.sim.running && !e.Start?
    ensures !b.sim.running && |b.sim.loops| <= |a.sim.loops|
    ensures |b.history.counted| + StillActive(b.sim.loops) <= |a.history.counted| + StillActive(a.sim.loops)
  {
    if e.CheckFlag? || e.Pop? || e.Count? {
      ActiveUpdate(a.sim.loops, e.loop, AtGuard);
      if e.Pop? {
        var t := match Taken(a.sim.sched) case Some(p) => Holding(p) case None => AtGuard;
        ActiveUpdate(a.sim.loops, e.loop, t);
      }
    }
  }

  /**
   After a stop, until the next start, at most one more packet is delivered per loop that was already past its
   flag check, however the steps interleave.
   */
  lemma {:induction false} StopEndsDelivery(limit: real, now: real, es: seq<Step>, xs: seq<Execution>, k: nat, j: nat)
    requires IsExecution(limit, now, es, xs) && k <= j <= |es| && (k == 0 || es[k - 1].Stop?)
    requires forall i :: k <= i < j ==> !es[i].Start?
    ensures !xs[j].sim.running && |xs[j].sim.loops| <= |xs[k].sim.loops|
    ensures |xs[j].history.counted| + StillActive(xs[j].sim.loops)
            <= |xs[k].history.counted| + StillActive(xs[k].sim.loops)
    decreases j
  {
    if j > k {
      StopEndsDelivery(limit, now, es, xs, k, j - 1);
      assert Follows(xs[j - 1], es[j - 1], xs[j - 1 + 1]);
      StoppedStep(xs[j - 1], es[j - 1], xs[j]);
    } else if k > 0 {
      assert Follows(xs[k - 1], es[k - 1], xs[k - 1 + 1]);
    }
  }

  // ---------- Partitions isolate ----------

  /** Partitions cut both ways. */
  lemma PartitionSymmetric(ps: seq<Partition>, a: NodeId, b: NodeId)
    ensures IsPartitioned(ps, a, b) <==> IsPartitioned(ps, b, a)
  {
    assert forall i :: 0 <= i < |ps| ==> (Separates(ps[i], a, b) <==> Separates(ps[i], b, a));
  }

  /** Splitting a list of different nodes separates exactly the nodes before the split from those after it. */
  lemma SplitSeparates(nodes: seq<NodeId>, mid: nat, i: nat, j: nat)
    requires mid <= |nodes| && i < |nodes| && j < |nodes|
    requires forall x, y :: 0 <= x < y < |nodes| ==> nodes[x] != nodes[y]
    ensures Separates(Partition(nodes[..mid], nodes[mid..], true), nodes[i], nodes[j]) <==> (i < mid) != (j < mid)
  {
    SideOf(nodes, mid, i);
    SideOf(nodes, mid, j);
  }

  lemma SideOf(nodes: seq<NodeId>, mid: nat, i: nat)
    requires mid <= |nodes| && i < |nodes|
    requires forall x, y :: 0 <= x < y < |nodes| ==> nodes[x] != nodes[y]
    ensures nodes[i] in nodes[..mid] <==> i < mid
    ensures nodes[i] in nodes[mid..] <==> i >= mid
  {
    if i < mid {
      assert nodes[..mid][i] == nodes[i];
    } else {
      assert nodes[mid..][i - mid] == nodes[i];
    }
  }

  predicate Crosses(p: Packet, a: NodeId, b: NodeId)
  {
    p.source == a && p.destination == b
  }

  function CrossCount(ps: seq<Packet>, a: NodeId, b: NodeId): nat
  {
    if ps == [] then 0 else CrossCount(ps[..|ps| - 1], a, b) + (if Crosses(ps[|ps| - 1], a, b) then 1 else 0)
  }

  /** No send from `a` to `b` has already passed its partition check. */
  ghost predicate NonePassed(ts: seq<SendTask>, a: NodeId, b: NodeId)
  {
    forall i :: 0 <= i < |ts| && ts[i].Admitting? ==> !Crosses(ts[i].packet, a, b)
  }

  lemma IsolatedStep(x: Execution, e: Step, y: Execution, p: Partition, a: NodeId, b: NodeId)
    requires Follows(x, e, y) && !e.Clear?
    requires p in x.sim.partitions && Separates(p, a, b) && NonePassed(x.sim.sends, a, b)
    ensures p in y.sim.partitions && NonePassed(y.sim.sends, a, b)
    ensures CrossCount(y.history.admitted, a, b) == CrossCount(x.history.admitted, a, b)
  {
    if e.Admit? {
      var q := x.sim.sends[e.task].packet;
      assert (x.history.admitted + [q])[..|x.history.admitted|] == x.history.admitted;
    } else if e.Decide? {
      var q := x.sim.sends[e.task].packet;
      assert Crosses(q, a, b) ==> IsPartitioned(x.sim.partitions, q.source, q.destination);
    }
  }

  /** While a partition that separates two nodes stands, no packet sent from the one to the other is admitted. */
  lemma {:induction false} PartitionIsolates(limit: real, now: real, es: seq<Step>, xs: seq<Execution>, k: nat, j: nat,
                                             p: Partition, a: NodeId, b: NodeId)
    requires IsExecution(limit, now, es, xs) && k <= j <= |es| && forall i :: k <= i < j ==> !es[i].Clear?
    requires p in xs[k].sim.partitions && Separates(p, a, b) && NonePassed(xs[k].sim.sends, a, b)
    ensures p in xs[j].sim.partitions && NonePassed(xs[j].sim.sends, a, b)
    ensures CrossCount(xs[j].history.admitted, a, b) == CrossCount(xs[k].history.admitted, a, b)
    decreases j
  {
    if j > k {
      PartitionIsolates(limit, now, es, xs, k, j - 1, p, a, b);
      assert Follows(xs[j - 1], es[j - 1], xs[j - 1 + 1]);
      IsolatedStep(xs[j - 1], es[j - 1], xs[j], p, a, b);
    }
  }

  // ---------- No loss without a cause ----------

  /** The step neither drops a packet at random nor sets up a complete partition. */
  predicate Harmless(e: Step)
  {
    (e.Decide? ==> !e.dropped) && (e.Divide? ==> !e.partition.complete)
  }

  ghost predicate LosesNothing(s: Sim)
  {
    && (forall i :: 0 <= i < |s.sends| ==> !s.sends[i].Losing?)
    && (forall i :: 0 <= i < |s.partitions| ==> !s.partitions[i].complete)
  }

  lemma HarmlessStep(x: Execution, e: Step, y: Execution)
    requires Follows(x, e, y) && Harmless(e) && LosesNothing(x.sim)
    ensures LosesNothing(y.sim) && y.history.lost == x.history.lost
  {
  }

  /**
   From the start or a reset on, with no loss under way: as long as no draw drops a packet and no complete
   partition is set up, nothing is lost, whatever other partitions there are or the reset removed.
   */
  lemma {:induction false} NoLossWithoutCause(limit: real, now: real, es: seq<Step>, xs: seq<Execution>, k: nat, j: nat)
    requires IsExecution(limit, now, es, xs) && k <= j <= |es| && (k == 0 || es[k - 1].Clear?)
    requires forall i :: 0 <= i < |xs[k].sim.sends| ==> !xs[k].sim.sends[i].Losing?
    requires forall i :: k <= i < j ==> Harmless(es[i])
    ensures LosesNothing(xs[j].sim) && xs[j].history.lost == xs[k].history.lost
    decreases j
  {
    if j > k {
      NoLossWithoutCause(limit, now, es, xs, k, j - 1);
      assert Follows(xs[j - 1], es[j - 1], xs[j - 1 + 1]);
      HarmlessStep(xs[j - 1], es[j - 1], xs[j]);
    } else if k > 0 {
      assert Follows(xs[k - 1], es[k - 1], xs[k - 1 + 1]);
    }
  }

  // ---------- Every loss has its cause ----------

  /** The partitions set up since the last reset. */
  function Standing(es: seq<Step>, k: nat): seq<Partition>
    requires k <= |es|
  {
    if k == 0 || es[k - 1].Clear? then []
    else Standing(es, k - 1) + (if es[k - 1].Divide? then [es[k - 1].partition] else [])
  }

  lemma {:induction false} PartitionsStand(limit: real, now: real, es: seq<Step>, xs: seq<Execution>, k: nat)
    requires IsExecution(limit, now, es, xs) && k <= |es|
    ensures xs[k].sim.partitions == Standing(es, k)
  {
    if k > 0 {
      PartitionsStand(limit, now, es, xs, k - 1);
      assert Follows(xs[k - 1], es[k - 1], xs[k - 1 + 1]);
    }
  }

  /** At step `i` a send is decided whose packet is drawn to be dropped or is cut off by a standing partition. */
  predicate HasCause(es: seq<Step>, xs: seq<Execution>, i: nat)
    requires i < |es| < |xs|
  {
    && es[i].Decide? && es[i].task < |xs[i].sim.sends|
    && var p := xs[i].sim.sends[es[i].task].packet;
       es[i].dropped || IsPartitioned(Standing(es, i), p.source, p.destination)
  }

  function Causes(es: seq<Step>, xs: seq<Execution>, k: nat): nat
    requires k <= |es| < |xs|
  {
    if k == 0 then 0 else Causes(es, xs, k - 1) + (if HasCause(es, xs, k - 1) then 1 else 0)
  }

  function IsLosing(t: SendTask): nat
  {
    if t.Losing? then 1 else 0
  }

  function BeingLost(ts: seq<SendTask>): nat
  {
    SumOf(ts, IsLosing)
  }

  lemma LosingUpdate(ts: seq<SendTask>, i: nat, t: SendTask)
    requires i < |ts|
    ensures BeingLost(ts[i := t]) + IsLosing(ts[i]) == BeingLost(ts) + IsLosing(t)
    ensures BeingLost(Without(ts, i)) + IsLosing(ts[i]) == BeingLost(ts)
  {
    SumOfAround(ts, i, IsLosing);
    SumOfAround(ts[i := t], i, IsLosing);
    assert Without(ts[i := t], i) == Without(ts, i);
  }

  lemma LossStep(x: Execution, e: Step, y: Execution)
    requires Follows(x, e, y)
    ensures |y.history.lost| + BeingLost(y.sim.sends) ==
            |x.history.lost| + BeingLost(x.sim.sends) +
            (if e.Decide? && (e.dropped || IsPartitioned(x.sim.partitions, x.sim.sends[e.task].packet.source,
                                                         x.sim.sends[e.task].packet.destination)) then 1 else 0)
  {
    match e
    case Enter(p) => SumOfSnoc(x.sim.sends, Undecided(p), IsLosing);
    case Decide(i, _) => LosingUpdate(x.sim.sends, i, y.sim.sends[i]);
    case Lose(i) => LosingUpdate(x.sim.sends, i, x.sim.sends[i]);
    case Admit(i, _) => LosingUpdate(x.sim.sends, i, x.sim.sends[i]);
    case _ =>
  }

  /**
   In every interleaving the packets lost and being lost are exactly as many as the decisions at which the draw
   dropped the packet or a partition set up since the last reset stood between its ends.
   */
  lemma {:induction false} LossesHaveCauses(limit: real, now: real, es: seq<Step>, xs: seq<Execution>, k: nat)
    requires IsExecution(limit, now, es, xs) && k <= |es|
    ensures |xs[k].history.lost| + BeingLost(xs[k].sim.sends) == Causes(es, xs, k)
  {
    if k > 0 {
      LossesHaveCauses(limit, now, es, xs, k - 1);
      PartitionsStand(limit, now, es, xs, k - 1);
      assert Follows(xs[k - 1], es[k - 1], xs[k - 1 + 1]);
      LossStep(xs[k - 1], es[k - 1], xs[k]);
    }
  }

  // ---------- The limit in force ----------

  /** The limit of the last change before step `k`. */
  function LimitAt(limit: real, es: seq<Step>, k: nat): real
    requires k <= |es|
  {
    if k == 0 then limit else if es[k - 1].SetLimit? then es[k - 1].limit else LimitAt(limit, es, k - 1)
  }

  lemma {:induction false} LimitIsLastSet(limit: real, now: real, es: seq<Step>, xs: seq<Execution>, k: nat)
    requires IsExecution(limit, now, es, xs) && k <= |es|
    ensures var t := xs[k].sim.sched.tracker; t.limit == LimitAt(limit, es, k) && t.windowDuration == 1.0
  {
    if k > 0 {
      LimitIsLastSet(limit, now, es, xs, k - 1);
      assert Follows(xs[k - 1], es[k - 1], xs[k - 1 + 1]);
    }
  }

  /** The usage that a packet arriving at `now` adds to: nothing once the window is a second old. */
  function UsageBefore(t: Tracker, now: real): real
  {
    if now >= t.windowStart + 1.0 then 0.0 else t.usage
  }

  /** A packet is admitted exactly if its bits and the window's usage stay within the limit set last. */
  lemma AdmittedIffWithinLimit(limit: real, now: real, es: seq<Step>, xs: seq<Execution>, k: nat)
    requires IsExecution(limit, now, es, xs) && k < |es| && es[k].Admit?
    ensures Enabled(xs[k].sim, es[k])
    ensures var t, p := xs[k].sim.sched.tracker, xs[k].sim.sends[es[k].task].packet;
            var fits := 1_000_000.0 * UsageBefore(t, es[k].now) + 8.0 * p.size as real
                        <= 1_000_000.0 * LimitAt(limit, es, k);
            && xs[k + 1].history.admitted == xs[k].history.admitted + (if fits then [p] else [])
            && xs[k + 1].history.rejected == xs[k].history.rejected + (if fits then [] else [p])
  {
    LimitIsLastSet(limit, now, es, xs, k);
    assert Follows(xs[k], es[k], xs[k + 1]);
  }

  // ---------- A packet gets through ----------

  lemma Extend(limit: real, now: real, es: seq<Step>, xs: seq<Execution>, e: Step)
    returns (fs: seq<Step>, ys: seq<Execution>)
    requires IsExecution(limit, now, es, xs) && Enabled(xs[|es|].sim, e)
    ensures fs == es + [e] && IsExecution(limit, now, fs, ys)
    ensures ys[|fs|] == Execution(Next(xs[|es|].sim, e), Record(xs[|es|].history, xs[|es|].sim, e))
  {
    var last := xs[|es|];
    fs, ys := es + [e], xs + [Execution(Next(last.sim, e), Record(last.history, last.sim, e))];
    forall i | 0 <= i < |fs|
      ensures Follows(ys[i], fs[i], ys[i + 1])
    {
      assert i < |es| ==> Follows(xs[i], es[i], xs[i + 1]);
    }
  }

  /** Any packet that fits the limit alone, sent on a fresh started simulator, can be delivered. */
  lemma DeliveryReachable(limit: real, now: real, p: Packet) returns (es: seq<Step>, xs: seq<Execution>)
    requires Mbits(p.size) <= limit
    ensures IsExecution(limit, now, es, xs)
    ensures xs[|es|].history.counted == [p] && xs[|es|].sim.results.packetsReceived == 1
  {
    es, xs := [], [Execution(Initial(limit, now), NO_HISTORY)];
    es, xs := Extend(limit, now, es, xs, Start);
    es, xs := Extend(limit, now, es, xs, Enter(p));
    es, xs := Extend(limit, now, es, xs, Decide(0, false));
    assert xs[|es|].sim.sends == [Admitting(p)] && xs[|es|].sim.loops == [AtGuard];
    es, xs := Extend(limit, now, es, xs, Admit(0, now));
    assert Taken(xs[|es|].sim.sched) == Some(p);
    es, xs := Extend(limit, now, es, xs, CheckFlag(0));
    es, xs := Extend(limit, now, es, xs, Pop(0));
    assert xs[|es|].sim.loops == [Holding(p)];
    es, xs := Extend(limit, now, es, xs, Count(0));
  }

  // ---------- The critical sections on the shared object ----------

  class NetworkSimulator {
    var running: bool
    var results: Results
    var partitions: seq<Partition>
    const scheduler: Scheduler

    constructor (limit: real, now: real)
      ensures !running && results == NO_RESULTS && partitions == []
      ensures fresh(scheduler) && fresh(scheduler.tracker) && scheduler.View() == Create(limit, now)
    {
      running, results, partitions := false, NO_RESULTS, [];
      scheduler := new Scheduler(limit, now);
    }

    /** The first halving point splits the list of nodes; fewer than two nodes change nothing. */
    method SimulateNetworkPartition(nodes: seq<NodeId>)
      modifies this`partitions
      ensures |nodes| < 2 ==> partitions == old(partitions)
      ensures |nodes| >= 2 ==>
                exists p :: partitions == old(partitions) + [p] && p.complete && p.sideA + p.sideB == nodes
                            && p.sideA != [] && p.sideB != [] && 0 <= |p.sideB| - |p.sideA| <= 1
    {
      if |nodes| < 2 {
        return;
      }
      var mid := |nodes| / 2;
      var p := Partition(nodes[..mid], nodes[mid..], true);
      partitions := partitions + [p];
      assert p.sideA + p.sideB == nodes;
    }

    method PartitionCheck(source: NodeId, destination: NodeId) returns (cut: bool)
      ensures cut <==> IsPartitioned(partitions, source, destination)
    {
      for i := 0 to |partitions|
        invariant forall j :: 0 <= j < i ==> !Separates(partitions[j], source, destination)
      {
        if Separates(partitions[i], source, destination) {
          return true;
        }
      }
      cut := false;
    }

    method RecordPacketLoss(p: Packet)
      modifies this`results
      ensures results == LossRecorded(old(results), p)
    {
      var lost := results.packetsLost + 1;
      var stats := if p.source in results.nodes then results.nodes[p.source] else NodeStats(0, 0, 0.0);
      stats := stats.(packetsSent := stats.packetsSent + 1);
      stats := stats.(bytesSent := stats.bytesSent + p.size);
      stats := stats.(packetLossRate := lost as real / (results.packetsSent + lost) as real);
      results := results.(packetsLost := lost, nodes := results.nodes[p.source := stats]);
    }

    /** A send with no other task running between its sections. */
    method SendPacket(p: Packet, dropped: bool, now: real) returns (outcome: Option<Outcome>)
      requires Complete(scheduler.queues)
      modifies this`results, scheduler, scheduler.tracker
      ensures outcome.None? ==>
                results == (if running && (dropped || IsPartitioned(partitions, p.source, p.destination))
                            then LossRecorded(old(results), p) else old(results))
                && scheduler.View() == old(scheduler.View())
      ensures outcome.Some? ==>
                && results == old(results)
                && scheduler.View() == Put(old(scheduler.View()), p, now)
                && outcome.value == OutcomeOf(old(scheduler.View()), PutOp(p, now))
      ensures outcome.Some? <==> running && !dropped && !IsPartitioned(partitions, p.source, p.destination)
    {
      if !running {
        return None;
      }
      var cut := PartitionCheck(p.source, p.destination);
      if dropped || cut {
        RecordPacketLoss(p);
        return None;
      }
      var ok := scheduler.SchedulePacket(p, now);
      outcome := Some(if ok then Accepted(p) else Rejected(p));
    }

    method StartRunning() returns (ok: bool)
      modifies this`running
      ensures running && (ok <==> !old(running))
    {
      ok := !running;
      running := true;
    }

    method StopRunning()
      modifies this`running
      ensures !running
    {
      running := false;
    }

    /** The rest of a turn of the delivery loop, which may find the flag cleared since it was checked. */
    method DeliverNext() returns (packet: Option<Packet>)
      requires Complete(scheduler.queues)
      modifies this`results, scheduler, scheduler.tracker
      ensures packet == Taken(old(scheduler.View())) && scheduler.View() == Take(old(scheduler.View()))
      ensures results == if packet.Some? then DeliveryCounted(old(results)) else old(results)
    {
      packet := scheduler.GetNextPacket();
      if packet.Some? {
        var throughput := if results.durationSecs == 0 then 0.0 else 0.0 / (results.durationSecs as real * 1_000_000.0);
        results := results.(packetsReceived := results.packetsReceived + 1);
        results := results.(throughput := throughput);
      }
    }

    /** Stop, then clear the results and partitions; the scheduler keeps its queues. */
    method Reset()
      modifies this
      ensures !running && results == NO_RESULTS && partitions == []
    {
      StopRunning();
      results := NO_RESULTS;
      partitions := [];
    }
  }
}
