/**
 The network simulator's packet scheduler: four FIFO queues, one per priority, behind a
 bandwidth check that is made when a packet is admitted but charged when it is taken out.
 */
module PacketScheduler {
  import opened Common

  datatype Priority = Low | Normal | High | Critical

  datatype Packet = Packet(id: nat, source: NodeId, destination: NodeId, payload: seq<Byte>, size: nat,
                           priority: Priority)

  function Rank(p: Priority): nat
  {
    match p
    case Low => 0
    case Normal => 1
    case High => 2
    case Critical => 3
  }

  // ---------- Bandwidth tracking ----------

  datatype Tracker = Tracker(limit: real, usage: real, windowStart: real, windowDuration: real)

  function Mbits(bytes: nat): (m: real)
    ensures m >= 0.0
  {
    (bytes * 8) as real / 1_000_000.0
  }

  /** Opens a new window if the current one has run out by time `now`. */
  function Rolled(t: Tracker, now: real): Tracker
  {
    if now - t.windowStart >= t.windowDuration then t.(usage := 0.0, windowStart := now) else t
  }

  predicate Fits(t: Tracker, bytes: nat)
  {
    t.usage + Mbits(bytes) <= t.limit
  }

  // ---------- The four queues ----------

  type Queues = map<Priority, seq<Packet>>

  datatype Sched = Sched(queues: Queues, tracker: Tracker)

  predicate Complete(q: Queues)
  {
    forall p: Priority :: p in q
  }

  lemma AllPresent(q: Queues)
    requires Critical in q && High in q && Normal in q && Low in q
    ensures Complete(q)
  {
    forall p: Priority ensures p in q {
      match p case Low => case Normal => case High => case Critical =>
    }
  }

  function Create(limit: real, now: real): (s: Sched)
    ensures Complete(s.queues)
  {
    var q: Queues := map[Critical := [], High := [], Normal := [], Low := []];
    AllPresent(q);
    Sched(q, Tracker(limit, 0.0, now, 1.0))
  }

  /** Admission rolls the window, checks the limit and appends; nothing is charged yet. */
  function Put(s: Sched, p: Packet, now: real): (r: Sched)
    requires Complete(s.queues)
    ensures Complete(r.queues)
  {
    var t := Rolled(s.tracker, now);
    if Fits(t, p.size) then Sched(s.queues[p.priority := s.queues[p.priority] + [p]], t) else Sched(s.queues, t)
  }

  /** The queue the next packet is taken from: the first non-empty one in priority order. */
  function Source(q: Queues): Option<Priority>
    requires Complete(q)
  {
    if q[Critical] != [] then Some(Critical)
    else if q[High] != [] then Some(High)
    else if q[Normal] != [] then Some(Normal)
    else if q[Low] != [] then Some(Low)
    else None
  }

  /** Taking a packet charges its size to the current window without rolling it. */
  function Take(s: Sched): (r: Sched)
    requires Complete(s.queues)
    ensures Complete(r.queues)
  {
    match Source(s.queues)
    case None => s
    case Some(p) =>
      Sched(s.queues[p := s.queues[p][1..]], s.tracker.(usage := s.tracker.usage + Mbits(s.queues[p][0].size)))
  }

  function Taken(s: Sched): Option<Packet>
    requires Complete(s.queues)
  {
    match Source(s.queues)
    case None => None
    case Some(p) => Some(s.queues[p][0])
  }

  // ---------- The reference: one arrival-ordered list ----------

  datatype Reference = Reference(arrivals: seq<Packet>, tracker: Tracker)

  /** `i` holds the earliest packet of the highest priority present. */
  ghost predicate IsNext(a: seq<Packet>, i: nat)
  {
    && i < |a|
    && (forall j :: 0 <= j < |a| ==> Rank(a[j].priority) <= Rank(a[i].priority))
    && (forall j :: 0 <= j < i ==> Rank(a[j].priority) < Rank(a[i].priority))
  }

  function NextIndex(a: seq<Packet>): (i: nat)
    requires a != []
    ensures IsNext(a, i)
  {
    var n := |a| - 1;
    if n == 0 then 0 else
      var b := NextIndex(a[..n]);
      assert forall j :: 0 <= j < n ==> a[j] == a[..n][j];
      if Rank(a[n].priority) > Rank(a[b].priority) then n else b
  }

  function RefPut(s: Reference, p: Packet, now: real): Reference
  {
    var t := Rolled(s.tracker, now);
    if Fits(t, p.size) then Reference(s.arrivals + [p], t) else Reference(s.arrivals, t)
  }

  function RefTake(s: Reference): Reference
  {
    if s.arrivals == [] then s else
      var i := NextIndex(s.arrivals);
      Reference(Without(s.arrivals, i), s.tracker.(usage := s.tracker.usage + Mbits(s.arrivals[i].size)))
  }

  function RefTaken(s: Reference): Option<Packet>
  {
    if s.arrivals == [] then None else Some(s.arrivals[NextIndex(s.arrivals)])
  }

  /** The packets of one priority, in arrival order. */
  function Of(a: seq<Packet>, p: Priority): seq<Packet>
  {
    if a == [] then [] else
      var init, last := a[..|a| - 1], a[|a| - 1];
      if last.priority == p then Of(init, p) + [last] else Of(init, p)
  }

  ghost predicate Represents(s: Sched, r: Reference)
  {
    && Complete(s.queues)
    && s.tracker == r.tracker
    && forall p :: p in s.queues ==> s.queues[p] == Of(r.arrivals, p)
  }

  lemma OfSnoc(a: seq<Packet>, x: Packet, p: Priority)
    ensures Of(a + [x], p) == if x.priority == p then Of(a, p) + [x] else Of(a, p)
  {
    assert (a + [x])[..|a|] == a;
  }

  lemma {:induction false} OfConcat(a: seq<Packet>, b: seq<Packet>, p: Priority)
    ensures Of(a + b, p) == Of(a, p) + Of(b, p)
    decreases |b|
  {
    if b == [] {
      assert a + b == a;
    } else {
      var init, last := b[..|b| - 1], b[|b| - 1];
      OfConcat(a, init, p);
      assert a + b == (a + init) + [last];
      OfSnoc(a + init, last, p);
    }
  }

  lemma {:induction false} OfAbsent(a: seq<Packet>, p: Priority)
    requires forall x :: x in a ==> x.priority != p
    ensures Of(a, p) == []
  {
    if a == [] {
    } else {
      OfAbsent(a[..|a| - 1], p);
    }
  }

  lemma {:induction false} OfPresent(a: seq<Packet>, p: Priority)
    ensures Of(a, p) != [] <==> exists i :: 0 <= i < |a| && a[i].priority == p
  {
    if a == [] {
    } else {
      var n := |a| - 1;
      OfPresent(a[..n], p);
      assert forall i :: 0 <= i < n ==> a[..n][i] == a[i];
    }
  }

  lemma OfAround(l: seq<Packet>, x: Packet, r: seq<Packet>, p: Priority)
    ensures Of(l + [x] + r, p) == (if x.priority == p then Of(l, p) + [x] else Of(l, p)) + Of(r, p)
  {
    OfConcat(l + [x], r, p);
    OfSnoc(l, x, p);
  }

  /** Removing the first packet of its priority drops the head of that queue and nothing else. */
  lemma OfWithout(a: seq<Packet>, i: nat, p: Priority)
    requires i < |a|
    requires forall j :: 0 <= j < i ==> a[j].priority != a[i].priority
    ensures a[i].priority == p ==> Of(a, p) == [a[i]] + Of(Without(a, i), p)
    ensures a[i].priority != p ==> Of(a, p) == Of(Without(a, i), p)
  {
    var l, x, r := a[..i], a[i], a[i + 1..];
    assert a == l + [x] + r;
    OfAround(l, x, r, p);
    OfConcat(l, r, p);
    if x.priority == p {
      OfAbsent(l, p);
      EmptyLeft([x]);
      EmptyLeft(Of(r, p));
    }
  }

  lemma EmptyLeft(q: seq<Packet>)
    ensures [] + q == q
  {
  }

  /** The first non-empty queue belongs to the priority that `IsNext` demands. */
  lemma SourceIsNext(s: Sched, r: Reference)
    requires Represents(s, r)
    ensures Source(s.queues).None? <==> r.arrivals == []
    ensures r.arrivals != [] ==> Source(s.queues) == Some(r.arrivals[NextIndex(r.arrivals)].priority)
  {
    var a := r.arrivals;
    OfPresent(a, Critical);
    OfPresent(a, High);
    OfPresent(a, Normal);
    OfPresent(a, Low);
    if a != [] {
      var i := NextIndex(a);
      assert Of(a, a[i].priority) != [] by { OfPresent(a, a[i].priority); }
      var src := Source(s.queues).value;
      assert Of(a, src) != [];
      OfPresent(a, src);
      var j :| 0 <= j < |a| && a[j].priority == src;
      assert Rank(src) <= Rank(a[i].priority);
    }
  }

  // ---------- Refinement ----------

  lemma PutRefines(s: Sched, r: Reference, p: Packet, now: real)
    requires Represents(s, r)
    ensures Represents(Put(s, p, now), RefPut(r, p, now))
  {
    forall q | q in s.queues
      ensures Put(s, p, now).queues[q] == Of(RefPut(r, p, now).arrivals, q)
    {
      OfSnoc(r.arrivals, p, q);
    }
  }

  lemma TakeRefines(s: Sched, r: Reference)
    requires Represents(s, r)
    ensures Taken(s) == RefTaken(r)
    ensures Represents(Take(s), RefTake(r))
  {
    SourceIsNext(s, r);
    if r.arrivals != [] {
      var a := r.arrivals;
      var i := NextIndex(a);
      forall q | q in s.queues
        ensures a[i].priority == q ==> s.queues[q] == [a[i]] + Of(Without(a, i), q)
        ensures a[i].priority != q ==> s.queues[q] == Of(Without(a, i), q)
      {
        OfWithout(a, i, q);
      }
    }
  }

  datatype Op = PutOp(packet: Packet, now: real) | TakeOp

  datatype Outcome = Accepted(packet: Packet) | Rejected(packet: Packet) | Delivered(packet: Packet) | Idle

  function Apply(s: Sched, op: Op): Sched
    requires Complete(s.queues)
  {
    match op
    case PutOp(p, now) => Put(s, p, now)
    case TakeOp => Take(s)
  }

  function OutcomeOf(s: Sched, op: Op): Outcome
    requires Complete(s.queues)
  {
    match op
    case PutOp(p, now) => if Fits(Rolled(s.tracker, now), p.size) then Accepted(p) else Rejected(p)
    case TakeOp => match Taken(s) case Some(p) => Delivered(p) case None => Idle
  }

  function RefApply(r: Reference, op: Op): Reference
  {
    match op
    case PutOp(p, now) => RefPut(r, p, now)
    case TakeOp => RefTake(r)
  }

  function RefOutcomeOf(r: Reference, op: Op): Outcome
  {
    match op
    case PutOp(p, now) => if Fits(Rolled(r.tracker, now), p.size) then Accepted(p) else Rejected(p)
    case TakeOp => match RefTaken(r) case Some(p) => Delivered(p) case None => Idle
  }

  /** The state after a sequence of operations. */
  function Run(s: Sched, ops: seq<Op>): (r: Sched)
    requires Complete(s.queues)
    ensures Complete(r.queues)
  {
    if ops == [] then s else Apply(Run(s, ops[..|ops| - 1]), ops[|ops| - 1])
  }

  function Outcomes(s: Sched, ops: seq<Op>): seq<Outcome>
    requires Complete(s.queues)
  {
    if ops == [] then [] else
      Outcomes(s, ops[..|ops| - 1]) + [OutcomeOf(Run(s, ops[..|ops| - 1]), ops[|ops| - 1])]
  }

  function RefRun(r: Reference, ops: seq<Op>): Reference
  {
    if ops == [] then r else RefApply(RefRun(r, ops[..|ops| - 1]), ops[|ops| - 1])
  }

  function RefOutcomes(r: Reference, ops: seq<Op>): seq<Outcome>
  {
    if ops == [] then [] else
      RefOutcomes(r, ops[..|ops| - 1]) + [RefOutcomeOf(RefRun(r, ops[..|ops| - 1]), ops[|ops| - 1])]
  }

  /** For every sequence of operations the four queues behave like the one list. */
  lemma {:induction false} QueuesRefineList(s: Sched, r: Reference, ops: seq<Op>)
    requires Represents(s, r)
    ensures Represents(Run(s, ops), RefRun(r, ops))
    ensures Outcomes(s, ops) == RefOutcomes(r, ops)
  {
    if ops == [] {
    } else {
      var init, op := ops[..|ops| - 1], ops[|ops| - 1];
      QueuesRefineList(s, r, init);
      match op
      case PutOp(p, now) => PutRefines(Run(s, init), RefRun(r, init), p, now);
      case TakeOp => TakeRefines(Run(s, init), RefRun(r, init));
    }
  }

  /** A fresh scheduler represents the empty list. */
  lemma CreateRepresents(limit: real, now: real)
    ensures Represents(Create(limit, now), Reference([], Tracker(limit, 0.0, now, 1.0)))
  {
  }

  function Admitted(os: seq<Outcome>): seq<Packet>
  {
    if os == [] then [] else
      var init, o := Admitted(os[..|os| - 1]), os[|os| - 1];
      if o.Accepted? then init + [o.packet] else init
  }

  function DeliveredOf(os: seq<Outcome>): seq<Packet>
  {
    if os == [] then [] else
      var init, o := DeliveredOf(os[..|os| - 1]), os[|os| - 1];
      if o.Delivered? then init + [o.packet] else init
  }

  /** Every queue holds packets of its own priority only. */
  ghost predicate Filed(q: Queues)
    requires Complete(q)
  {
    forall p: Priority, x :: x in q[p] ==> x.priority == p
  }

  /** Taking removes the head of exactly one queue, the one of the packet's priority. */
  lemma TakeRemovesHead(s: Sched, p: Priority)
    requires Complete(s.queues) && Filed(s.queues)
    ensures Filed(Take(s).queues)
    ensures Taken(s).Some? ==>
              s.queues[p] == (if Taken(s).value.priority == p then [Taken(s).value] else []) + Take(s).queues[p]
    ensures Taken(s).None? ==> Take(s) == s
  {
    if Taken(s).Some? {
      var src := Source(s.queues).value;
      var head := s.queues[src][0];
      assert head in s.queues[src];
      assert s.queues[src] == [head] + s.queues[src][1..];
    }
  }

  /**
   Within one priority the stream of deliveries followed by what is still queued is exactly the
   stream of admissions: first in first out, nothing lost, nothing delivered twice.
   */
  lemma {:induction false} FifoWithinPriority(s: Sched, ops: seq<Op>, p: Priority)
    requires Complete(s.queues) && Filed(s.queues)
    ensures Filed(Run(s, ops).queues)
    ensures s.queues[p] + Of(Admitted(Outcomes(s, ops)), p)
            == Of(DeliveredOf(Outcomes(s, ops)), p) + Run(s, ops).queues[p]
    decreases |ops|
  {
    if ops == [] {
    } else {
      var init, op := ops[..|ops| - 1], ops[|ops| - 1];
      FifoWithinPriority(s, init, p);
      FifoStep(s.queues[p], Run(s, init), Outcomes(s, init), op, p);
      var os, o := Outcomes(s, init), OutcomeOf(Run(s, init), op);
      assert (os + [o])[..|os|] == os;
    }
  }

  lemma OutcomeSnoc(os: seq<Outcome>, o: Outcome)
    ensures Admitted(os + [o]) == Admitted(os) + (if o.Accepted? then [o.packet] else [])
    ensures DeliveredOf(os + [o]) == DeliveredOf(os) + (if o.Delivered? then [o.packet] else [])
  {
    assert (os + [o])[..|os|] == os;
  }

  lemma FifoStep(start: seq<Packet>, s: Sched, os: seq<Outcome>, op: Op, p: Priority)
    requires Complete(s.queues) && Filed(s.queues)
    requires start + Of(Admitted(os), p) == Of(DeliveredOf(os), p) + s.queues[p]
    ensures Filed(Apply(s, op).queues)
    ensures start + Of(Admitted(os + [OutcomeOf(s, op)]), p)
            == Of(DeliveredOf(os + [OutcomeOf(s, op)]), p) + Apply(s, op).queues[p]
  {
    OutcomeSnoc(os, OutcomeOf(s, op));
    match op
    case PutOp(x, now) => FifoPut(start, s, Admitted(os), DeliveredOf(os), x, now, p);
    case TakeOp => FifoTake(start, s, Admitted(os), DeliveredOf(os), p);
  }

  lemma FifoPut(start: seq<Packet>, s: Sched, a: seq<Packet>, d: seq<Packet>, x: Packet, now: real, p: Priority)
    requires Complete(s.queues) && Filed(s.queues)
    requires start + Of(a, p) == Of(d, p) + s.queues[p]
    ensures Filed(Put(s, x, now).queues)
    ensures var accepted := if OutcomeOf(s, PutOp(x, now)).Accepted? then [x] else [];
            start + Of(a + accepted, p) == Of(d + [], p) + Put(s, x, now).queues[p]
  {
    var accepted := if OutcomeOf(s, PutOp(x, now)).Accepted? then [x] else [];
    PutAppends(s, x, now, p);
    OfConcat(a, accepted, p);
    assert d + [] == d;
    Regroup(start, Of(a, p), Of(d, p), s.queues[p], Of(accepted, p));
  }

  lemma FifoTake(start: seq<Packet>, s: Sched, a: seq<Packet>, d: seq<Packet>, p: Priority)
    requires Complete(s.queues) && Filed(s.queues)
    requires start + Of(a, p) == Of(d, p) + s.queues[p]
    ensures Filed(Take(s).queues)
    ensures var delivered := if Taken(s).Some? then [Taken(s).value] else [];
            start + Of(a + [], p) == Of(d + delivered, p) + Take(s).queues[p]
  {
    TakeRemovesHead(s, p);
    assert a + [] == a && d + [] == d;
    if Taken(s).Some? {
      var x := Taken(s).value;
      OfSnoc(d, x, p);
      MoveHead(Of(d, p), if x.priority == p then [x] else [], Take(s).queues[p]);
    }
  }

  lemma MoveHead(d: seq<Packet>, head: seq<Packet>, q: seq<Packet>)
    ensures d + (head + q) == (d + head) + q
    ensures d + [] == d
  {
  }

  lemma Regroup(start: seq<Packet>, a: seq<Packet>, d: seq<Packet>, q: seq<Packet>, tail: seq<Packet>)
    requires start + a == d + q
    ensures start + (a + tail) == d + (q + tail)
  {
    assert start + (a + tail) == (start + a) + tail;
    assert d + (q + tail) == (d + q) + tail;
  }

  lemma PutAppends(s: Sched, x: Packet, now: real, p: Priority)
    requires Complete(s.queues) && Filed(s.queues)
    ensures Filed(Put(s, x, now).queues)
    ensures Put(s, x, now).queues[p] ==
            s.queues[p] + Of(if OutcomeOf(s, PutOp(x, now)).Accepted? then [x] else [], p)
  {
    assert [x][..0] == [];
    assert Of([x], p) == if x.priority == p then [] + [x] else [];
    assert s.queues[p] + [] == s.queues[p];
  }

  // ---------- The mutable scheduler ----------

  class BandwidthTracker {
    var limit: real
    var usage: real
    var windowStart: real
    var windowDuration: real

    function View(): Tracker
      reads this
    {
      Tracker(limit, usage, windowStart, windowDuration)
    }

    constructor (limit: real, now: real)
      ensures View() == Tracker(limit, 0.0, now, 1.0)
    {
      this.limit, usage, windowStart, windowDuration := limit, 0.0, now, 1.0;
    }

    method UpdateWindow(now: real)
      modifies this
      ensures View() == Rolled(old(View()), now)
    {
      if now - windowStart >= windowDuration {
        usage := 0.0;
        windowStart := now;
      }
    }

    method CanSend(bytes: nat, now: real) returns (ok: bool)
      modifies this
      ensures View() == Rolled(old(View()), now)
      ensures ok <==> Fits(View(), bytes)
    {
      UpdateWindow(now);
      ok := usage + Mbits(bytes) <= limit;
    }

    method RecordSend(bytes: nat)
      modifies this
      ensures View() == old(View()).(usage := old(usage) + Mbits(bytes))
    {
      usage := usage + Mbits(bytes);
    }
  }

  class Scheduler {
    var queues: Queues
    const tracker: BandwidthTracker

    function View(): Sched
      reads this, tracker
    {
      Sched(queues, tracker.View())
    }

    constructor (limit: real, now: real)
      ensures View() == Create(limit, now)
      ensures fresh(tracker)
    {
      queues := map[Critical := [], High := [], Normal := [], Low := []];
      tracker := new BandwidthTracker(limit, now);
    }

    method SchedulePacket(p: Packet, now: real) returns (ok: bool)
      requires Complete(queues)
      modifies this, tracker
      ensures View() == Put(old(View()), p, now)
      ensures ok <==> OutcomeOf(old(View()), PutOp(p, now)) == Accepted(p)
      ensures !ok <==> OutcomeOf(old(View()), PutOp(p, now)) == Rejected(p)
    {
      ok := tracker.CanSend(p.size, now);
      if ok {
        queues := queues[p.priority := queues[p.priority] + [p]];
      }
    }

    /** Scans the four priorities from the most to the least urgent. */
    method GetNextPacket() returns (packet: Option<Packet>)
      requires Complete(queues)
      modifies this, tracker
      ensures View() == Take(old(View()))
      ensures packet == Taken(old(View()))
    {
      var priorities := [Critical, High, Normal, Low];
      for i := 0 to 4
        invariant View() == old(View())
        invariant i > 0 ==> queues[Critical] == []
        invariant i > 1 ==> queues[High] == []
        invariant i > 2 ==> queues[Normal] == []
        invariant i > 3 ==> queues[Low] == []
      {
        assert priorities[i] == (if i == 0 then Critical else if i == 1 then High else if i == 2 then Normal else Low);
        var queue := queues[priorities[i]];
        if queue != [] {
          queues := queues[priorities[i] := queue[1..]];
          tracker.RecordSend(queue[0].size);
          return Some(queue[0]);
        }
      }
      packet := None;
    }
  }
}
