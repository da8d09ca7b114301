/**
 The chunked file transfer of the CLI: chunk arithmetic, the completion bitmap, and the send loop with
 bounded retries. The network is any function from everything sent so far to a reply, so it may treat
 every message differently. The file does not change during the transfer, and a read returns as many
 bytes as the chunk size allows.
 */
module FileTransfer {
  import opened Common

  datatype Message = Message(index: nat, data: seq<Byte>, isFinal: bool)

  datatype Reply = Acked | Refused | NetworkError

  type Network = seq<Message> -> Reply

  // ---------- Chunk arithmetic ----------

  function ChunkCount(size: nat, chunkSize: nat): nat
    requires chunkSize > 0
  {
    (size + chunkSize - 1) / chunkSize
  }

  /** Where chunk `i` starts. */
  function Offset(chunkSize: nat, i: nat): nat
  {
    i * chunkSize
  }

  lemma OffsetStep(chunkSize: nat, i: nat)
    ensures Offset(chunkSize, i + 1) == Offset(chunkSize, i) + chunkSize
  {
  }

  lemma OffsetMonotone(chunkSize: nat, i: nat, j: nat)
    requires i <= j
    ensures Offset(chunkSize, i) <= Offset(chunkSize, j)
  {
    assert Offset(chunkSize, j) - Offset(chunkSize, i) == (j - i) * chunkSize;
  }

  /** Every counted chunk starts inside the file, and only the last one reaches its end. */
  lemma ChunkBounds(size: nat, chunkSize: nat, i: nat)
    requires chunkSize > 0
    ensures i < ChunkCount(size, chunkSize) <==> Offset(chunkSize, i) < size
    ensures i < ChunkCount(size, chunkSize) ==>
              (i + 1 == ChunkCount(size, chunkSize) <==> Offset(chunkSize, i + 1) >= size)
  {
    var n := ChunkCount(size, chunkSize);
    CeilDiv(size, chunkSize, n);
    OffsetStep(chunkSize, i);
    if i < n {
      OffsetMonotone(chunkSize, i, n - 1);
      if i + 1 < n {
        OffsetMonotone(chunkSize, i + 1, n - 1);
      }
    } else {
      OffsetMonotone(chunkSize, n, i);
    }
  }

  lemma CeilDiv(size: nat, c: nat, n: nat)
    requires c > 0 && n == (size + c - 1) / c
    ensures Offset(c, n) >= size
    ensures n > 0 ==> Offset(c, n - 1) < size
  {
    var q, r := n, (size + c - 1) % c;
    assert size + c - 1 == c * q + r;
    if n > 0 {
      OffsetStep(c, n - 1);
    }
  }

  /** What reading up to one chunk size at chunk `i`'s offset returns. */
  function Read(file: seq<Byte>, chunkSize: nat, i: nat): seq<Byte>
    requires Offset(chunkSize, i) <= |file|
  {
    file[Offset(chunkSize, i)..Min(Offset(chunkSize, i) + chunkSize, |file|)]
  }

  function MessageOf(file: seq<Byte>, chunkSize: nat, i: nat): Message
    requires chunkSize > 0 && i < ChunkCount(|file|, chunkSize)
  {
    ChunkBounds(|file|, chunkSize, i);
    Message(i, Read(file, chunkSize, i), i == ChunkCount(|file|, chunkSize) - 1)
  }

  /** The first `k` chunk messages of a file. */
  function Messages(file: seq<Byte>, chunkSize: nat, k: nat): (ms: seq<Message>)
    requires chunkSize > 0 && k <= ChunkCount(|file|, chunkSize)
    ensures |ms| == k
  {
    if k == 0 then [] else Messages(file, chunkSize, k - 1) + [MessageOf(file, chunkSize, k - 1)]
  }

  function AllMessages(file: seq<Byte>, chunkSize: nat): seq<Message>
    requires chunkSize > 0
  {
    Messages(file, chunkSize, ChunkCount(|file|, chunkSize))
  }

  function Payload(ms: seq<Message>): seq<Byte>
  {
    if ms == [] then [] else Payload(ms[..|ms| - 1]) + ms[|ms| - 1].data
  }

  lemma {:induction false} MessageAt(file: seq<Byte>, chunkSize: nat, k: nat, i: nat)
    requires chunkSize > 0 && i < k <= ChunkCount(|file|, chunkSize)
    ensures Messages(file, chunkSize, k)[i] == MessageOf(file, chunkSize, i)
  {
    if i < k - 1 {
      MessageAt(file, chunkSize, k - 1, i);
    }
  }

  /** Reading chunk `i` extends the part of the file before it. */
  lemma ReadExtends(file: seq<Byte>, chunkSize: nat, i: nat)
    requires chunkSize > 0 && i < ChunkCount(|file|, chunkSize)
    ensures file[..Min(Offset(chunkSize, i), |file|)] + MessageOf(file, chunkSize, i).data
            == file[..Min(Offset(chunkSize, i + 1), |file|)]
  {
    ChunkBounds(|file|, chunkSize, i);
    OffsetStep(chunkSize, i);
    var lo := Offset(chunkSize, i);
    Splice(file, lo, Min(lo + chunkSize, |file|));
  }

  /** The first `k` chunks carry exactly the first `k` chunk sizes of the file. */
  lemma {:induction false} PayloadIsPrefix(file: seq<Byte>, chunkSize: nat, k: nat)
    requires chunkSize > 0 && k <= ChunkCount(|file|, chunkSize)
    ensures Payload(Messages(file, chunkSize, k)) == file[..Min(Offset(chunkSize, k), |file|)]
  {
    if k == 0 {
    } else {
      PayloadIsPrefix(file, chunkSize, k - 1);
      ReadExtends(file, chunkSize, k - 1);
      var ms := Messages(file, chunkSize, k);
      assert ms[..k - 1] == Messages(file, chunkSize, k - 1);
    }
  }

  lemma Splice(file: seq<Byte>, lo: nat, hi: nat)
    requires lo <= hi <= |file|
    ensures file[..lo] + file[lo..hi] == file[..hi]
  {
  }

  /**
   The chunks of a file are non-empty, in order, at most one chunk size long, and concatenate to
   exactly the file; the last one, and only the last one, is flagged final.
   */
  lemma ChunksPartitionFile(file: seq<Byte>, chunkSize: nat)
    requires chunkSize > 0
    ensures var ms := AllMessages(file, chunkSize);
            && Payload(ms) == file
            && forall i :: 0 <= i < |ms| ==>
                 ms[i].index == i && 1 <= |ms[i].data| <= chunkSize && (ms[i].isFinal <==> i == |ms| - 1)
  {
    var n := ChunkCount(|file|, chunkSize);
    PayloadIsPrefix(file, chunkSize, n);
    CeilDiv(|file|, chunkSize, n);
    var ms := AllMessages(file, chunkSize);
    forall i | 0 <= i < |ms|
      ensures ms[i].index == i && 1 <= |ms[i].data| <= chunkSize && (ms[i].isFinal <==> i == |ms| - 1)
    {
      MessageAt(file, chunkSize, n, i);
      ChunkBounds(|file|, chunkSize, i);
    }
  }

  // ---------- Which networks let a transfer complete ----------

  /** After `log`, the `t`-th copy of `m` is the first one that is acknowledged. */
  ghost predicate FirstAckAt(net: Network, log: seq<Message>, m: Message, t: nat)
  {
    && t >= 1
    && net(log + Repeat(m, t)) == Acked
    && forall u :: 1 <= u < t ==> net(log + Repeat(m, u)) != Acked
  }

  /** Everything sent when message `i` is sent `plan[i]` times. */
  function LogOf(ms: seq<Message>, plan: seq<nat>): seq<Message>
    requires |plan| == |ms|
  {
    if ms == [] then [] else
      var k := |ms| - 1;
      LogOf(ms[..k], plan[..k]) + Repeat(ms[k], plan[k])
  }

  /** Every message is first acknowledged at its planned attempt, within the budget. */
  ghost predicate Completes(net: Network, budget: nat, ms: seq<Message>, plan: seq<nat>)
  {
    && |plan| == |ms|
    && (ms != [] ==>
          var k := |ms| - 1;
          && Completes(net, budget, ms[..k], plan[..k])
          && plan[k] <= budget
          && FirstAckAt(net, LogOf(ms[..k], plan[..k]), ms[k], plan[k]))
  }

  /** The budget is exhausted on `m`: none of its copies is acknowledged. */
  ghost predicate Exhausts(net: Network, budget: nat, log: seq<Message>, m: Message)
  {
    forall u :: 1 <= u <= budget ==> net(log + Repeat(m, u)) != Acked
  }

  /** The network lets the whole list through: some plan completes it. */
  ghost predicate Completable(net: Network, budget: nat, ms: seq<Message>)
  {
    exists plan: seq<nat> :: Completes(net, budget, ms, plan)
  }

  /** The network determines the plan. */
  lemma {:induction false} PlanUnique(net: Network, budget: nat, ms: seq<Message>, p: seq<nat>, q: seq<nat>)
    requires Completes(net, budget, ms, p) && Completes(net, budget, ms, q)
    ensures p == q
    decreases |ms|
  {
    if ms == [] {
    } else {
      var k := |ms| - 1;
      PlanUnique(net, budget, ms[..k], p[..k], q[..k]);
      assert p[k] == q[k];
      assert p == p[..k] + [p[k]] && q == q[..k] + [q[k]];
    }
  }

  lemma {:induction false} PrefixCompletes(net: Network, budget: nat, ms: seq<Message>, p: seq<nat>, k: nat)
    requires Completes(net, budget, ms, p) && k <= |ms|
    ensures Completes(net, budget, ms[..k], p[..k])
    decreases |ms|
  {
    if k == |ms| {
      assert ms[..k] == ms && p[..k] == p;
    } else {
      var n := |ms| - 1;
      PrefixCompletes(net, budget, ms[..n], p[..n], k);
      assert ms[..n][..k] == ms[..k] && p[..n][..k] == p[..k];
    }
  }

  /** Where one message exhausts the budget, no plan completes the whole list. */
  lemma ExhaustedNeverCompletes(net: Network, budget: nat, ms: seq<Message>, k: nat, plan: seq<nat>, other: seq<nat>)
    requires k < |ms| && Completes(net, budget, ms[..k], plan)
    requires Exhausts(net, budget, LogOf(ms[..k], plan), ms[k])
    ensures !Completes(net, budget, ms, other)
  {
    if Completes(net, budget, ms, other) {
      PrefixCompletes(net, budget, ms, other, k + 1);
      assert ms[..k + 1][..k] == ms[..k] && other[..k + 1][..k] == other[..k];
      PlanUnique(net, budget, ms[..k], plan, other[..k]);
    }
  }

  // ---------- The session ----------

  class FileTransferSession {
    var completed: seq<bool>
    var bytesTransferred: nat
    var errorCount: nat

    constructor (chunkCount: nat)
      ensures completed == seq(chunkCount, _ => false) && bytesTransferred == 0 && errorCount == 0
    {
      completed, bytesTransferred, errorCount := seq(chunkCount, _ => false), 0, 0;
    }

    /** The first incomplete chunk, or the number of chunks if there is none. */
    method NextMissingChunk() returns (i: nat)
      ensures i <= |completed| && (forall j :: 0 <= j < i ==> completed[j])
      ensures i < |completed| ==> !completed[i]
    {
      i := 0;
      while i < |completed| && completed[i]
        invariant i <= |completed| && forall j :: 0 <= j < i ==> completed[j]
      {
        i := i + 1;
      }
    }

    /** Completing a chunk again, or one that does not exist, changes nothing. */
    method MarkChunkCompleted(i: nat, size: nat)
      modifies this`completed, this`bytesTransferred
      ensures if i < |old(completed)| && !old(completed)[i]
              then completed == old(completed)[i := true] && bytesTransferred == old(bytesTransferred) + size
              else completed == old(completed) && bytesTransferred == old(bytesTransferred)
    {
      if i < |completed| && !completed[i] {
        completed := completed[i := true];
        bytesTransferred := bytesTransferred + size;
      }
    }

    predicate IsComplete()
      reads this
    {
      forall i :: 0 <= i < |completed| ==> completed[i]
    }
  }

  /** The first `k` of `n` chunks are complete. */
  function PrefixDone(k: nat, n: nat): seq<bool>
  {
    seq(n, i => i < k)
  }

  datatype Outcome = Sent | FailedChunk(index: nat)

  /** `log` is what was sent when the first `k` chunks went through following `plan`. */
  ghost predicate Planned(net: Network, budget: nat, file: seq<Byte>, chunkSize: nat, k: nat, plan: seq<nat>,
                          log: seq<Message>)
    requires chunkSize > 0
  {
    && k <= ChunkCount(|file|, chunkSize)
    && Completes(net, budget, Messages(file, chunkSize, k), plan)
    && log == LogOf(Messages(file, chunkSize, k), plan)
  }

  /**
   The retry loop for chunk `i`, whose message is `m`: it sends until the first acknowledgement or
   until the budget of `maxRetries + 1` sends is spent.
   */
  method SendChunk(session: FileTransferSession, i: nat, m: Message, maxRetries: nat, net: Network, start: seq<Message>)
    returns (sent: bool, log: seq<Message>, ghost tries: nat)
    requires i < |session.completed| && !session.completed[i]
    modifies session
    ensures log == start + Repeat(m, tries) && tries <= maxRetries + 1
    ensures sent ==> FirstAckAt(net, start, m, tries)
    ensures !sent ==> tries == maxRetries + 1 && Exhausts(net, maxRetries + 1, start, m)
    ensures session.completed == if sent then old(session.completed)[i := true] else old(session.completed)
    ensures session.bytesTransferred == old(session.bytesTransferred) + (if sent then |m.data| else 0)
    ensures session.errorCount == old(session.errorCount) + (if sent then tries - 1 else tries)
  {
    var retry := 0;
    sent, log, tries := false, start, 0;
    while retry <= maxRetries && !sent
      invariant retry <= maxRetries + 1
      invariant tries == (if sent then retry + 1 else retry) && log == start + Repeat(m, tries)
      invariant sent ==> retry <= maxRetries && FirstAckAt(net, start, m, tries)
      invariant !sent ==> forall u :: 1 <= u <= retry ==> net(start + Repeat(m, u)) != Acked
      invariant session.completed == if sent then old(session.completed)[i := true] else old(session.completed)
      invariant session.bytesTransferred == old(session.bytesTransferred) + (if sent then |m.data| else 0)
      invariant session.errorCount == old(session.errorCount) + retry
      decreases maxRetries + 1 - retry, !sent
    {
      tries := tries + 1;
      assert start + Repeat(m, tries) == log + [m];
      log := log + [m];
      match net(log)
      case Acked =>
        session.MarkChunkCompleted(i, |m.data|);
        sent := true;
      case Refused =>
        retry := retry + 1;
        session.errorCount := session.errorCount + 1;
      case NetworkError =>
        retry := retry + 1;
        session.errorCount := session.errorCount + 1;
        if retry > maxRetries {
          return;
        }
    }
  }

  /** The session's view of a transfer whose first `k` chunks are through. */
  ghost predicate AtChunk(session: FileTransferSession, file: seq<Byte>, chunkSize: nat, k: nat, sends: nat)
    requires chunkSize > 0
    reads session
  {
    && session.completed == PrefixDone(k, ChunkCount(|file|, chunkSize))
    && session.bytesTransferred == Min(Offset(chunkSize, k), |file|)
    && session.errorCount + k == sends
  }

  /** The first missing chunk is read and sent, within the budget. */
  method SendMissingChunk(session: FileTransferSession, file: seq<Byte>, chunkSize: nat, maxRetries: nat, net: Network,
                          start: seq<Message>, ghost k: nat)
    returns (i: nat, sent: bool, log: seq<Message>, ghost tries: nat)
    requires chunkSize > 0 && k <= ChunkCount(|file|, chunkSize)
    requires AtChunk(session, file, chunkSize, k, |start|) && !session.IsComplete()
    modifies session
    ensures i == k < ChunkCount(|file|, chunkSize) && tries <= maxRetries + 1
    ensures log == start + Repeat(MessageOf(file, chunkSize, k), tries)
    ensures sent ==> FirstAckAt(net, start, MessageOf(file, chunkSize, k), tries)
    ensures !sent ==> tries == maxRetries + 1 && Exhausts(net, maxRetries + 1, start, MessageOf(file, chunkSize, k))
    ensures AtChunk(session, file, chunkSize, if sent then k + 1 else k, |log|)
  {
    var n := ChunkCount(|file|, chunkSize);
    i := session.NextMissingChunk();
    FirstMissing(session.completed, k, n, i);
    ChunkBounds(|file|, chunkSize, i);
    var data := Read(file, chunkSize, i);
    var m := Message(i, data, i == n - 1);
    assert m == MessageOf(file, chunkSize, k);
    sent, log, tries := SendChunk(session, i, m, maxRetries, net, start);
    PrefixGrows(k, n);
    BytesGrow(file, chunkSize, k);
  }

  /** One turn of the chunk loop, with what it means for the whole transfer. */
  method SendNextChunk(session: FileTransferSession, file: seq<Byte>, chunkSize: nat, maxRetries: nat, net: Network,
                       start: seq<Message>, ghost k: nat, ghost plan: seq<nat>)
    returns (i: nat, sent: bool, log: seq<Message>, ghost tries: nat)
    requires chunkSize > 0 && Planned(net, maxRetries + 1, file, chunkSize, k, plan, start)
    requires AtChunk(session, file, chunkSize, k, |start|) && !session.IsComplete()
    modifies session
    ensures i == k < ChunkCount(|file|, chunkSize)
    ensures AtChunk(session, file, chunkSize, if sent then k + 1 else k, |log|)
    ensures sent ==> Planned(net, maxRetries + 1, file, chunkSize, k + 1, plan + [tries], log)
    ensures !sent ==> log == start + Repeat(MessageOf(file, chunkSize, k), maxRetries + 1)
    ensures !sent ==> !Completable(net, maxRetries + 1, AllMessages(file, chunkSize))
  {
    i, sent, log, tries := SendMissingChunk(session, file, chunkSize, maxRetries, net, start, k);
    if sent {
      Advance(file, chunkSize, net, maxRetries + 1, k, plan, start, tries);
    } else {
      GivesUp(file, chunkSize, net, maxRetries + 1, k, plan, start);
    }
  }

  /**
   The chunk loop of `send_file`. The transfer succeeds exactly when the network acknowledges every
   chunk within the budget of `maxRetries + 1` sends; the completed chunks always form a prefix, the
   byte counter is the size of that prefix, and the messages sent are exactly the planned repetitions,
   followed after a failure by one full budget of the failing chunk.
   */
  method SendFile(file: seq<Byte>, chunkSize: nat, maxRetries: nat, net: Network)
    returns (r: Outcome, log: seq<Message>, session: FileTransferSession,
             ghost k: nat, ghost plan: seq<nat>, ghost acked: seq<Message>)
    requires chunkSize > 0
    ensures r.Sent? <==> Completable(net, maxRetries + 1, AllMessages(file, chunkSize))
    ensures Planned(net, maxRetries + 1, file, chunkSize, k, plan, acked)
    ensures AtChunk(session, file, chunkSize, k, |log|)
    ensures r.Sent? ==> k == ChunkCount(|file|, chunkSize) && log == acked && session.bytesTransferred == |file|
    ensures r.FailedChunk? ==>
              && r.index == k < ChunkCount(|file|, chunkSize)
              && log == acked + Repeat(MessageOf(file, chunkSize, k), maxRetries + 1)
  {
    session := new FileTransferSession(ChunkCount(|file|, chunkSize));
    log, k, plan, acked := [], 0, [], [];
    while !session.IsComplete()
      invariant fresh(session)
      invariant Planned(net, maxRetries + 1, file, chunkSize, k, plan, log)
      invariant AtChunk(session, file, chunkSize, k, |log|)
      decreases ChunkCount(|file|, chunkSize) - k
    {
      acked := log;
      var i, sent;
      ghost var tries;
      i, sent, log, tries := SendNextChunk(session, file, chunkSize, maxRetries, net, log, k, plan);
      if !sent {
        return FailedChunk(i), log, session, k, plan, acked;
      }
      plan, k := plan + [tries], k + 1;
    }
    AllDone(session.completed, k, ChunkCount(|file|, chunkSize));
    Arrived(file, chunkSize, net, maxRetries + 1, k, plan, log);
    r, acked := Sent, log;
  }

  lemma PrefixGrows(k: nat, n: nat)
    requires k < n
    ensures PrefixDone(k, n)[k := true] == PrefixDone(k + 1, n)
  {
  }

  /** In a completed prefix the first missing chunk is the one after it. */
  lemma FirstMissing(completed: seq<bool>, k: nat, n: nat, i: nat)
    requires completed == PrefixDone(k, n) && k <= n && i <= n
    requires exists j :: 0 <= j < n && !completed[j]
    requires forall j :: 0 <= j < i ==> completed[j]
    requires i < n ==> !completed[i]
    ensures i == k < n
  {
    assert k < n ==> !completed[k];
  }

  lemma AllDone(completed: seq<bool>, k: nat, n: nat)
    requires completed == PrefixDone(k, n) && k <= n
    ensures (forall j :: 0 <= j < n ==> completed[j]) <==> k == n
  {
    if k < n {
      assert !completed[k];
    }
  }

  lemma Arrived(file: seq<Byte>, chunkSize: nat, net: Network, budget: nat, k: nat, plan: seq<nat>, log: seq<Message>)
    requires chunkSize > 0 && Planned(net, budget, file, chunkSize, k, plan, log)
    ensures k == ChunkCount(|file|, chunkSize) ==>
              Completable(net, budget, AllMessages(file, chunkSize)) && Offset(chunkSize, k) >= |file|
  {
    CeilDiv(|file|, chunkSize, ChunkCount(|file|, chunkSize));
  }

  lemma GivesUp(file: seq<Byte>, chunkSize: nat, net: Network, budget: nat, k: nat, plan: seq<nat>, log: seq<Message>)
    requires chunkSize > 0 && k < ChunkCount(|file|, chunkSize)
    requires Planned(net, budget, file, chunkSize, k, plan, log)
    requires Exhausts(net, budget, log, MessageOf(file, chunkSize, k))
    ensures !Completable(net, budget, AllMessages(file, chunkSize))
  {
    var ms := AllMessages(file, chunkSize);
    MessagesPrefix(file, chunkSize, k, |ms|);
    MessageAt(file, chunkSize, |ms|, k);
    forall p
      ensures !Completes(net, budget, ms, p)
    {
      ExhaustedNeverCompletes(net, budget, ms, k, plan, p);
    }
  }

  lemma {:induction false} MessagesPrefix(file: seq<Byte>, chunkSize: nat, k: nat, n: nat)
    requires chunkSize > 0 && k <= n <= ChunkCount(|file|, chunkSize)
    ensures Messages(file, chunkSize, n)[..k] == Messages(file, chunkSize, k)
    decreases n
  {
    if k < n {
      MessagesPrefix(file, chunkSize, k, n - 1);
    }
  }

  lemma Advance(file: seq<Byte>, chunkSize: nat, net: Network, budget: nat, k: nat, plan: seq<nat>,
                log: seq<Message>, t: nat)
    requires chunkSize > 0 && k < ChunkCount(|file|, chunkSize)
    requires Planned(net, budget, file, chunkSize, k, plan, log)
    requires t <= budget && FirstAckAt(net, log, MessageOf(file, chunkSize, k), t)
    ensures Planned(net, budget, file, chunkSize, k + 1, plan + [t], log + Repeat(MessageOf(file, chunkSize, k), t))
  {
    var ms := Messages(file, chunkSize, k + 1);
    assert ms[..k] == Messages(file, chunkSize, k);
    assert (plan + [t])[..k] == plan;
  }

  lemma BytesGrow(file: seq<Byte>, chunkSize: nat, k: nat)
    requires chunkSize > 0 && k < ChunkCount(|file|, chunkSize)
    ensures Min(Offset(chunkSize, k), |file|) + |MessageOf(file, chunkSize, k).data|
            == Min(Offset(chunkSize, k + 1), |file|)
  {
    ChunkBounds(|file|, chunkSize, k);
    OffsetStep(chunkSize, k);
  }

  // ---------- How often each chunk is sent ----------

  function CountIndex(log: seq<Message>, i: nat): nat
  {
    if log == [] then 0 else CountIndex(log[..|log| - 1], i) + (if log[|log| - 1].index == i then 1 else 0)
  }

  lemma {:induction false} CountConcat(a: seq<Message>, b: seq<Message>, i: nat)
    ensures CountIndex(a + b, i) == CountIndex(a, i) + CountIndex(b, i)
    decreases |b|
  {
    if b == [] {
      assert a + b == a;
    } else {
      var n := |b| - 1;
      CountConcat(a, b[..n], i);
      assert (a + b)[..|a| + n] == a + b[..n];
    }
  }

  lemma {:induction false} CountRepeat(m: Message, n: nat, i: nat)
    ensures CountIndex(Repeat(m, n), i) == if m.index == i then n else 0
  {
    if n == 0 {
    } else {
      CountRepeat(m, n - 1, i);
      assert Repeat(m, n)[..n - 1] == Repeat(m, n - 1);
    }
  }

  /** In a completed run chunk `i` is sent exactly as often as planned, within the budget. */
  lemma {:induction false} SendsPerChunk(net: Network, budget: nat, ms: seq<Message>, plan: seq<nat>, i: nat)
    requires Completes(net, budget, ms, plan)
    requires forall j :: 0 <= j < |ms| ==> ms[j].index == j
    ensures CountIndex(LogOf(ms, plan), i) == if i < |ms| then plan[i] else 0
    ensures i < |ms| ==> 1 <= CountIndex(LogOf(ms, plan), i) <= budget
    decreases |ms|
  {
    if ms == [] {
    } else {
      var k := |ms| - 1;
      SendsPerChunk(net, budget, ms[..k], plan[..k], i);
      CountConcat(LogOf(ms[..k], plan[..k]), Repeat(ms[k], plan[k]), i);
      CountRepeat(ms[k], plan[k], i);
    }
  }

  /**
   In a failed run the chunks before the failing one are sent as planned, the failing one exactly as often as
   the budget allows, and the later ones not at all.
   */
  lemma SendsOfFailedRun(file: seq<Byte>, chunkSize: nat, net: Network, budget: nat, k: nat, plan: seq<nat>,
                         acked: seq<Message>, i: nat)
    requires chunkSize > 0 && k < ChunkCount(|file|, chunkSize)
    requires Planned(net, budget, file, chunkSize, k, plan, acked)
    ensures var log := acked + Repeat(MessageOf(file, chunkSize, k), budget);
            && (i < k ==> 1 <= CountIndex(log, i) == plan[i] <= budget)
            && (i == k ==> CountIndex(log, i) == budget)
            && (i > k ==> CountIndex(log, i) == 0)
  {
    var ms, m := Messages(file, chunkSize, k), MessageOf(file, chunkSize, k);
    forall j | 0 <= j < k
      ensures ms[j].index == j
    {
      MessageAt(file, chunkSize, k, j);
    }
    SendsPerChunk(net, budget, ms, plan, i);
    CountConcat(acked, Repeat(m, budget), i);
    CountRepeat(m, budget, i);
  }
}
