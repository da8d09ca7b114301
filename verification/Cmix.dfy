/**
 The cMix batcher: it buffers packets, shuffles and emits them in batches, and attaches to each
 batch a delay proof and an RSA-accumulator membership witness that anyone can verify.
 SHA-256 and hash-to-prime are arbitrary functions of the model.
 */
module Cmix {
  import opened Common
  import opened DelayFunction

  // ---------- The RSA accumulator ----------

  function Product(xs: seq<nat>): nat
  {
    if xs == [] then 1 else Product(xs[..|xs| - 1]) * xs[|xs| - 1]
  }

  /** The accumulator after adding `xs`; the empty one is the generator itself. */
  function Accumulated(n: nat, g: nat, xs: seq<nat>): nat
    requires n > 0
  {
    if xs == [] then g else Pow(g, Product(xs)) % n
  }

  predicate VerifyMembership(n: nat, element: nat, evidence: nat, value: nat)
    requires n > 0
  {
    ModPow(evidence, element, n) == value
  }

  /** Raising an accumulator to any exponent multiplies the exponents. */
  lemma PowerOfAccumulated(n: nat, g: nat, xs: seq<nat>, e: nat)
    requires n > 0
    ensures ModPow(Accumulated(n, g, xs), e, n) == Pow(g, Product(xs) * e) % n
  {
    var p := Product(xs);
    PowMul(g, p, e);
    if xs == [] {
      assert Pow(g, 1) == g * Pow(g, 0) == g;
    } else {
      PowMod(Pow(g, p), e, n);
    }
  }

  lemma AddAccumulates(n: nat, g: nat, xs: seq<nat>, x: nat)
    requires n > 0
    ensures ModPow(Accumulated(n, g, xs), x, n) == Accumulated(n, g, xs + [x])
  {
    PowerOfAccumulated(n, g, xs, x);
    assert (xs + [x])[..|xs|] == xs;
  }

  lemma {:induction false} ProductConcat(xs: seq<nat>, ys: seq<nat>)
    ensures Product(xs + ys) == Product(xs) * Product(ys)
    decreases |ys|
  {
    if ys == [] {
      assert xs + ys == xs;
    } else {
      var k := |ys| - 1;
      ProductConcat(xs, ys[..k]);
      assert (xs + ys)[..|xs| + k] == xs + ys[..k];
      Associate(Product(xs), Product(ys[..k]), ys[k]);
    }
  }

  lemma ProductAround(a: seq<nat>, x: nat, b: seq<nat>)
    ensures Product(a + [x] + b) == Product(a + b) * x
  {
    ProductConcat(a + [x], b);
    ProductConcat(a, [x]);
    assert Product([x]) == Product([]) * x == x;
    ProductConcat(a, b);
    Rotate(Product(a), x, Product(b));
  }

  lemma ProductExtract(xs: seq<nat>, i: nat)
    requires i < |xs|
    ensures Product(xs) == Product(Without(xs, i)) * xs[i]
  {
    ProductAround(xs[..i], xs[i], xs[i + 1..]);
    Around(xs, i);
  }

  lemma Rotate(a: nat, x: nat, b: nat)
    ensures a * x * b == a * b * x
  {
  }

  lemma Removed(xs: seq<nat>, i: nat)
    requires i < |xs|
    ensures multiset(Without(xs, i)) == multiset(xs) - multiset{xs[i]}
  {
    assert xs == xs[..i] + [xs[i]] + xs[i + 1..];
  }

  /** The order in which elements are accumulated does not matter. */
  lemma {:induction false} OrderIrrelevant(xs: seq<nat>, ys: seq<nat>)
    requires multiset(xs) == multiset(ys)
    ensures Product(xs) == Product(ys)
    decreases |xs|
  {
    assert |multiset(xs)| == |xs| && |multiset(ys)| == |ys|;
    if xs == [] {
    } else {
      var k := |xs| - 1;
      assert xs[k] in multiset(ys);
      var i :| 0 <= i < |ys| && ys[i] == xs[k];
      Removed(xs, k);
      Removed(ys, i);
      assert Without(xs, k) == xs[..k];
      OrderIrrelevant(xs[..k], Without(ys, i));
      ProductExtract(ys, i);
    }
  }

  /** The membership law: every element verifies against the accumulator of all the others. */
  lemma MembershipWitness(n: nat, g: nat, xs: seq<nat>, i: nat)
    requires n > 0 && i < |xs|
    ensures VerifyMembership(n, xs[i], Accumulated(n, g, Without(xs, i)), Accumulated(n, g, xs))
  {
    PowerOfAccumulated(n, g, Without(xs, i), xs[i]);
    ProductExtract(xs, i);
  }

  /** A witness still verifies later exactly if the accumulator has come back to the value it was issued for. */
  lemma StaleWitness(n: nat, g: nat, xs: seq<nat>, x: nat, later: seq<nat>)
    requires n > 0
    ensures VerifyMembership(n, x, Accumulated(n, g, xs), Accumulated(n, g, xs + [x] + later))
            <==> Accumulated(n, g, xs + [x] + later) == Accumulated(n, g, xs + [x])
  {
    AddAccumulates(n, g, xs, x);
  }

  lemma PowersOfTwo()
    ensures Pow(2, 3) == 8 && Pow(2, 9) == 512
  {
    assert Pow(2, 3) == 2 * Pow(2, 2) && Pow(2, 2) == 2 * Pow(2, 1) && Pow(2, 1) == 2 * Pow(2, 0);
    PowAdd(2, 3, 3);
    PowAdd(2, 6, 3);
  }

  lemma AccumulatedThrees()
    ensures Accumulated(5, 2, [3]) == 3 && Accumulated(5, 2, [3, 3]) == 2
  {
    PowersOfTwo();
    assert [3][..0] == [] && [3, 3][..1] == [3];
    assert Product([3]) == Product([]) * 3;
    assert Product([3, 3]) == Product([3]) * 3;
  }

  /** It can fail: modulo 5 with generator 2, the witness of an element after the same one is added again. */
  lemma StaleWitnessFails()
    ensures !VerifyMembership(5, 3, Accumulated(5, 2, []), Accumulated(5, 2, [] + [3] + [3]))
  {
    StaleWitness(5, 2, [], 3, [3]);
    AccumulatedThrees();
    assert [] + [3] == [3] && [3] + [3] == [3, 3];
  }

  /** Otherwise it is repaired by raising it to the elements added since. */
  lemma RefreshWitness(n: nat, g: nat, xs: seq<nat>, x: nat, later: seq<nat>)
    requires n > 0
    ensures VerifyMembership(n, x, ModPow(Accumulated(n, g, xs), Product(later), n),
                             Accumulated(n, g, xs + [x] + later))
  {
    var w := Accumulated(n, g, xs);
    var p := Product(later);
    PowMod(Pow(w, p), x, n);
    PowMul(w, p, x);
    PowerOfAccumulated(n, g, xs, p * x);
    ProductConcat(xs + [x], later);
    assert (xs + [x])[..|xs|] == xs;
    RotateIn(Product(xs), p, x);
  }

  lemma RotateIn(a: nat, p: nat, x: nat)
    ensures a * (p * x) == a * x * p
  {
  }

  class RsaAccumulator {
    const n: nat
    const g: nat
    var value: nat
    ghost var elements: seq<nat>

    ghost predicate Valid()
      reads this
    {
      n > 0 && value == Accumulated(n, g, elements)
    }

    constructor (n: nat, g: nat)
      requires n > 0
      ensures Valid() && elements == [] && this.n == n && this.g == g && value == g
    {
      this.n, this.g, value, elements := n, g, g, [];
    }

    /** Adds `x` and returns the value before the addition, which is its membership witness. */
    method Add(x: nat) returns (evidence: nat)
      requires Valid()
      modifies this
      ensures Valid() && elements == old(elements) + [x]
      ensures evidence == old(value)
      ensures VerifyMembership(n, x, evidence, value)
    {
      AddAccumulates(n, g, elements, x);
      evidence := value;
      value := ModPow(value, x, n);
      elements := elements + [x];
    }

    method Verify(x: nat, evidence: nat) returns (ok: bool)
      requires Valid()
      ensures ok <==> VerifyMembership(n, x, evidence, Accumulated(n, g, elements))
    {
      ok := ModPow(evidence, x, n) == value;
    }
  }

  // ---------- Batching ----------

  type Packet = seq<Byte>

  datatype Batch = Batch(packets: seq<Packet>, digest: nat, y: nat, pi: nat, iters: nat, accValue: nat, evidence: nat)

  /** `hash` is SHA-256 of the concatenated packets read as a number; `toPrime` is hash-to-prime. */
  datatype Params = Params(n: nat, g: nat, iters: nat, batchSize: nat, hash: seq<Packet> -> nat, toPrime: nat -> nat)
  {
    function Limit(): nat
    {
      if batchSize < 1 then 1 else batchSize
    }
  }

  /** The verifier: digest, delay proof and membership are each recomputed. */
  predicate VerifyBatch(p: Params, b: Batch)
    requires p.n > 0
  {
    && p.hash(b.packets) == b.digest
    && Verify(b.digest, b.y, b.pi, p.n, b.iters)
    && VerifyMembership(p.n, p.toPrime(b.digest), b.evidence, b.accValue)
  }

  datatype State = State(buffer: seq<Packet>, accValue: nat)

  /**
   One turn of the controller loop. `arrival` is the received packet, or `None` for a timeout or
   a closed channel; `order` is the shuffled buffer that is used if a batch is due.
   */
  datatype Event = Event(arrival: Option<Packet>, order: seq<Packet>)

  function Buffered(s: State, e: Event): seq<Packet>
  {
    if e.arrival.Some? then s.buffer + [e.arrival.value] else s.buffer
  }

  predicate Due(p: Params, s: State, e: Event)
  {
    var buffer := Buffered(s, e);
    |buffer| >= p.Limit() || (e.arrival.None? && buffer != [])
  }

  predicate Enabled(p: Params, s: State, e: Event)
  {
    Due(p, s, e) ==> multiset(e.order) == multiset(Buffered(s, e))
  }

  function Emitted(p: Params, s: State, e: Event): Batch
    requires p.n > 0
  {
    var digest := p.hash(e.order);
    Batch(e.order, digest, Output(digest, p.n, p.iters), ProofElement(digest, p.n, p.iters), p.iters,
          ModPow(s.accValue, p.toPrime(digest), p.n), s.accValue)
  }

  function Next(p: Params, s: State, e: Event): State
    requires p.n > 0
  {
    if Due(p, s, e) then State([], Emitted(p, s, e).accValue) else State(Buffered(s, e), s.accValue)
  }

  // ---------- Whole runs ----------

  /** The state and the batches sent out after a run of loop turns. */
  datatype Trace = Trace(state: State, batches: seq<Batch>)

  function Run(p: Params, es: seq<Event>): Trace
    requires p.n > 0
  {
    if es == [] then Trace(State([], p.g), []) else
      var before, e := Run(p, es[..|es| - 1]), es[|es| - 1];
      Trace(Next(p, before.state, e),
            if Due(p, before.state, e) then before.batches + [Emitted(p, before.state, e)] else before.batches)
  }

  predicate IsRun(p: Params, es: seq<Event>)
    requires p.n > 0
  {
    if es == [] then true else
      IsRun(p, es[..|es| - 1]) && Enabled(p, Run(p, es[..|es| - 1]).state, es[|es| - 1])
  }

  function Arrivals(es: seq<Event>): seq<Packet>
  {
    if es == [] then [] else
      var init, e := Arrivals(es[..|es| - 1]), es[|es| - 1];
      if e.arrival.Some? then init + [e.arrival.value] else init
  }

  function Packets(bs: seq<Batch>): seq<Packet>
  {
    if bs == [] then [] else Packets(bs[..|bs| - 1]) + bs[|bs| - 1].packets
  }

  function Elements(p: Params, bs: seq<Batch>): seq<nat>
  {
    seq<nat>(|bs|, i requires 0 <= i < |bs| => p.toPrime(bs[i].digest))
  }

  /** A batch as an honest controller builds it when `earlier` were already accumulated. */
  ghost predicate Honest(p: Params, b: Batch, earlier: seq<nat>)
    requires p.n > 0
  {
    && 1 <= |b.packets| <= p.Limit()
    && BuiltWith(p, b, earlier, p.iters)
  }

  /** A consistent batch whose delay proof is for `t` squarings. */
  ghost predicate BuiltWith(p: Params, b: Batch, earlier: seq<nat>, t: nat)
    requires p.n > 0
  {
    && b.digest == p.hash(b.packets)
    && b.iters == t
    && b.y == Output(b.digest, p.n, t)
    && b.pi == ProofElement(b.digest, p.n, t)
    && b.evidence == Accumulated(p.n, p.g, earlier)
    && b.accValue == Accumulated(p.n, p.g, earlier + [p.toPrime(b.digest)])
  }

  ghost predicate Sound(p: Params, received: seq<Packet>, tr: Trace)
    requires p.n > 0
  {
    && |tr.state.buffer| < p.Limit()
    && multiset(received) == multiset(tr.state.buffer) + multiset(Packets(tr.batches))
    && tr.state.accValue == Accumulated(p.n, p.g, Elements(p, tr.batches))
    && forall k :: 0 <= k < |tr.batches| ==> Honest(p, tr.batches[k], Elements(p, tr.batches)[..k])
  }

  lemma EmittedIsHonest(p: Params, earlier: seq<nat>, s: State, e: Event)
    requires p.n > 0 && s.accValue == Accumulated(p.n, p.g, earlier) && |s.buffer| < p.Limit()
    requires Due(p, s, e) && Enabled(p, s, e)
    ensures Honest(p, Emitted(p, s, e), earlier)
  {
    AddAccumulates(p.n, p.g, earlier, p.toPrime(p.hash(e.order)));
    assert |multiset(e.order)| == |e.order|;
    assert |multiset(Buffered(s, e))| == |Buffered(s, e)|;
  }

  lemma EmitSound(p: Params, received: seq<Packet>, tr: Trace, e: Event)
    requires p.n > 0 && Sound(p, received, tr)
    requires Due(p, tr.state, e) && Enabled(p, tr.state, e)
    ensures var b := Emitted(p, tr.state, e);
            Sound(p, received + (if e.arrival.Some? then [e.arrival.value] else []),
                  Trace(Next(p, tr.state, e), tr.batches + [b]))
  {
    var b := Emitted(p, tr.state, e);
    var bs := tr.batches + [b];
    var earlier := Elements(p, tr.batches);
    EmittedIsHonest(p, earlier, tr.state, e);
    assert Elements(p, bs) == earlier + [p.toPrime(b.digest)];
    assert bs[..|bs| - 1] == tr.batches;
    forall k | 0 <= k < |bs|
      ensures Honest(p, bs[k], Elements(p, bs)[..k])
    {
      assert Elements(p, bs)[..k] == earlier[..k];
      assert k == |earlier| ==> earlier[..k] == earlier;
    }
  }

  /** What every interleaving of arrivals and timeouts keeps. */
  lemma {:induction false} RunSound(p: Params, es: seq<Event>)
    requires p.n > 0 && IsRun(p, es)
    ensures Sound(p, Arrivals(es), Run(p, es))
  {
    if es == [] {
    } else {
      var init, e := es[..|es| - 1], es[|es| - 1];
      RunSound(p, init);
      var before := Run(p, init);
      if Due(p, before.state, e) {
        EmitSound(p, Arrivals(init), before, e);
      }
      assert e.arrival.None? ==> Arrivals(init) + [] == Arrivals(init);
    }
  }

  /**
   The verifier takes the number of squarings from the batch: a consistent batch verifies under the same
   condition for every number of squarings, whatever the configured one is.
   */
  lemma ConfiguredDelayNotChecked(p: Params, b: Batch, earlier: seq<nat>, t: nat)
    requires p.n > 0 && BuiltWith(p, b, earlier, t)
    ensures VerifyBatch(p, b) <==> t > 0 || b.digest < p.n
  {
    Completeness(b.digest, p.n, t);
    AddAccumulates(p.n, p.g, earlier, p.toPrime(b.digest));
  }

  lemma HonestMembership(p: Params, b: Batch, earlier: seq<nat>, t: nat)
    requires p.n > 0 && BuiltWith(p, b, earlier, t)
    ensures VerifyMembership(p.n, p.toPrime(b.digest), b.evidence, b.accValue)
  {
    AddAccumulates(p.n, p.g, earlier, p.toPrime(b.digest));
  }

  /** Other packets are accepted exactly if they have the same hash. */
  lemma ReplacedPackets(p: Params, b: Batch, earlier: seq<nat>, t: nat, packets: seq<Packet>)
    requires p.n > 0 && BuiltWith(p, b, earlier, t)
    ensures VerifyBatch(p, b.(packets := packets)) <==>
            p.hash(packets) == p.hash(b.packets) && (t > 0 || b.digest < p.n)
  {
    HonestMembership(p, b, earlier, t);
    Completeness(b.digest, p.n, t);
  }

  /** Another digest is never accepted for the same packets. */
  lemma ReplacedDigest(p: Params, b: Batch, earlier: seq<nat>, t: nat, digest: nat)
    requires p.n > 0 && BuiltWith(p, b, earlier, t)
    ensures VerifyBatch(p, b.(digest := digest)) <==> digest == p.hash(b.packets) && (t > 0 || digest < p.n)
  {
    if digest == b.digest {
      HonestMembership(p, b, earlier, t);
      Completeness(b.digest, p.n, t);
    }
  }

  /** With the honest proof element only the true power is accepted as the output. */
  lemma ReplacedOutput(p: Params, b: Batch, earlier: seq<nat>, t: nat, y: nat)
    requires p.n > 0 && BuiltWith(p, b, earlier, t)
    ensures VerifyBatch(p, b.(y := y)) <==> y == Pow(p.hash(b.packets), Pow(2, t)) % p.n
  {
    HonestMembership(p, b, earlier, t);
    VerifierComputesPower(b.digest, p.n, t, y);
  }

  /** Which proof elements and claimed numbers of squarings are accepted for the honest output. */
  lemma ReplacedProof(p: Params, b: Batch, earlier: seq<nat>, t: nat, pi: nat, iters: nat)
    requires p.n > 0 && BuiltWith(p, b, earlier, t)
    ensures VerifyBatch(p, b.(pi := pi, iters := iters)) <==>
            Pow(pi, L_PRIME) * Pow(p.hash(b.packets), Pow(2, iters) % L_PRIME) % p.n == b.y
  {
    HonestMembership(p, b, earlier, t);
    AcceptedProofs(b.digest, b.y, pi, p.n, iters);
  }

  /** Any witness and accumulator value are accepted exactly if raising the one to the batch's prime gives the other. */
  lemma ReplacedMembership(p: Params, b: Batch, earlier: seq<nat>, t: nat, evidence: nat, accValue: nat)
    requires p.n > 0 && BuiltWith(p, b, earlier, t)
    ensures VerifyBatch(p, b.(evidence := evidence, accValue := accValue)) <==>
            Pow(evidence, p.toPrime(p.hash(b.packets))) % p.n == accValue && (t > 0 || b.digest < p.n)
  {
    Completeness(b.digest, p.n, t);
  }

  /** So with the honest witness only the product of all exponents is accepted as the accumulator. */
  lemma ReplacedValue(p: Params, b: Batch, earlier: seq<nat>, t: nat, accValue: nat)
    requires p.n > 0 && BuiltWith(p, b, earlier, t)
    ensures VerifyBatch(p, b.(accValue := accValue)) <==>
            accValue == Pow(p.g, Product(earlier + [p.toPrime(p.hash(b.packets))])) % p.n && (t > 0 || b.digest < p.n)
  {
    ReplacedMembership(p, b, earlier, t, b.evidence, accValue);
    assert b.(evidence := b.evidence, accValue := accValue) == b.(accValue := accValue);
    HonestMembership(p, b, earlier, t);
  }

  /** The batch law: an honest batch verifies exactly when its delay proof does. */
  lemma HonestBatchVerifies(p: Params, b: Batch, earlier: seq<nat>)
    requires p.n > 0 && Honest(p, b, earlier)
    ensures VerifyBatch(p, b) <==> p.iters > 0 || b.digest < p.n
  {
    ConfiguredDelayNotChecked(p, b, earlier, p.iters);
  }

  lemma ChainedEvidence(p: Params, received: seq<Packet>, tr: Trace, k: nat)
    requires p.n > 0 && Sound(p, received, tr) && k < |tr.batches|
    ensures tr.batches[k].evidence == if k == 0 then p.g else tr.batches[k - 1].accValue
  {
    var els := Elements(p, tr.batches);
    assert Honest(p, tr.batches[k], els[..k]);
    if k > 0 {
      assert Honest(p, tr.batches[k - 1], els[..k - 1]);
      assert els[..k - 1] + [els[k - 1]] == els[..k];
    }
  }

  /**
   Over every run: no packet is lost or duplicated, every emitted batch verifies whenever at least
   one squaring is configured or its digest is below the modulus (and only then), and each batch's
   witness is the accumulator published with the batch before it.
   */
  lemma EveryBatchVerifies(p: Params, es: seq<Event>, tr: Trace, k: nat)
    requires p.n > 0 && IsRun(p, es) && tr == Run(p, es)
    requires k < |tr.batches|
    ensures VerifyBatch(p, tr.batches[k]) <==> p.iters > 0 || tr.batches[k].digest < p.n
    ensures tr.batches[k].evidence == if k == 0 then p.g else tr.batches[k - 1].accValue
    ensures 1 <= |tr.batches[k].packets| <= p.Limit()
    ensures multiset(Arrivals(es)) == multiset(tr.state.buffer) + multiset(Packets(tr.batches))
  {
    RunSound(p, es);
    ChainedEvidence(p, Arrivals(es), tr, k);
    HonestBatchVerifies(p, tr.batches[k], Elements(p, tr.batches)[..k]);
  }

  lemma Around(xs: seq<nat>, k: nat)
    requires k < |xs|
    ensures xs[..k] + [xs[k]] + xs[k + 1..] == xs
  {
  }

  /** After a turn without an arrival, a timeout, nothing stays behind: every packet received is in some batch. */
  lemma TimeoutFlushes(p: Params, es: seq<Event>)
    requires p.n > 0 && IsRun(p, es) && es != [] && es[|es| - 1].arrival.None?
    ensures Run(p, es).state.buffer == []
    ensures multiset(Arrivals(es)) == multiset(Packets(Run(p, es).batches))
  {
    RunSound(p, es);
  }

  ghost predicate OnlyArrivals(es: seq<Event>)
  {
    forall i :: 0 <= i < |es| ==> es[i].arrival.Some?
  }

  /** Without timeouts a batch goes out exactly at every `max(1, batchSize)`-th packet. */
  lemma {:induction false} FullBatches(p: Params, es: seq<Event>)
    requires p.n > 0 && IsRun(p, es) && OnlyArrivals(es)
    ensures var size := if p.batchSize < 1 then 1 else p.batchSize;
            |es| == size * |Run(p, es).batches| + |Run(p, es).state.buffer| && |Run(p, es).state.buffer| < size
  {
    if es == [] {
    } else {
      FullBatches(p, es[..|es| - 1]);
      Step(if p.batchSize < 1 then 1 else p.batchSize, |Run(p, es[..|es| - 1]).batches| + 1);
    }
  }

  /** An old witness still proves membership once it is raised to the elements added since. */
  lemma OldBatchStillProvable(p: Params, received: seq<Packet>, tr: Trace, k: nat)
    requires p.n > 0 && Sound(p, received, tr) && k < |tr.batches|
    ensures var later := Elements(p, tr.batches)[k + 1..];
            VerifyMembership(p.n, p.toPrime(tr.batches[k].digest),
                             ModPow(tr.batches[k].evidence, Product(later), p.n), tr.state.accValue)
  {
    var els := Elements(p, tr.batches);
    assert Honest(p, tr.batches[k], els[..k]);
    Around(els, k);
    RefreshWitness(p.n, p.g, els[..k], els[k], els[k + 1..]);
  }

  // ---------- The controller ----------

  class CmixController {
    const params: Params
    var buffer: seq<Packet>
    var acc: RsaAccumulator

    ghost predicate Valid()
      reads this, acc
    {
      params.n > 0 && acc.Valid() && acc.n == params.n && acc.g == params.g
    }

    function View(): State
      reads this, acc
    {
      State(buffer, acc.value)
    }

    constructor (p: Params)
      requires p.n > 0
      ensures Valid() && params == p && View() == State([], p.g) && fresh(acc)
    {
      params, buffer := p, [];
      acc := new RsaAccumulator(p.n, p.g);
    }

    /** One loop turn: buffers an arrival and emits a batch when one is due. */
    method Turn(e: Event) returns (out: Option<Batch>)
      requires Valid() && Enabled(params, View(), e)
      modifies this, acc
      ensures Valid() && acc == old(acc)
      ensures View() == Next(params, old(View()), e)
      ensures out == if Due(params, old(View()), e) then Some(Emitted(params, old(View()), e)) else None
    {
      var noPacket := e.arrival.None?;
      if e.arrival.Some? {
        buffer := buffer + [e.arrival.value];
      }
      out := None;
      if |buffer| >= params.Limit() || (noPacket && buffer != []) {
        var digest := params.hash(e.order);
        var y, pi := ProveMont(digest, params.n, params.iters);
        var evidence := acc.Add(params.toPrime(digest));
        out := Some(Batch(e.order, digest, y, pi, params.iters, acc.value, evidence));
        buffer := [];
      }
    }
  }
}
