/**
 The settings synchroniser: an event loop that broadcasts local settings to registered peers and merges
 inbound frames into its own copy. The local settings live in a watch cell that tells whether its value
 has been seen; each peer is a bounded channel. The local sender is alive throughout.
 */
module SettingsSync {
  import opened Common
  import opened Settings

  type Handle = nat

  type Frame = seq<Byte>

  /** `log` lists every frame that this loop got accepted, whatever the receiver has read of it. */
  datatype Channel = Channel(queue: seq<Frame>, capacity: nat, closed: bool, log: seq<Frame>)

  type Channels = map<Handle, Channel>

  /** Whether `try_send` would succeed. */
  predicate CanSend(cs: Channels, h: Handle)
  {
    h in cs && !cs[h].closed && |cs[h].queue| < cs[h].capacity
  }

  function TrySend(cs: Channels, h: Handle, f: Frame): Channels
  {
    if CanSend(cs, h) then cs[h := cs[h].(queue := cs[h].queue + [f], log := cs[h].log + [f])] else cs
  }

  /** A receiver may read from the front of its queue or close; channels may be created, empty. */
  predicate Evolves(a: Channels, b: Channels)
  {
    && (forall h :: h in a ==> h in b && ChannelEvolves(a[h], b[h]))
    && (forall h :: h in b && h !in a ==> b[h].queue == [] && b[h].log == [])
  }

  predicate ChannelEvolves(a: Channel, b: Channel)
  {
    && b.capacity == a.capacity && b.log == a.log
    && (a.closed ==> b.closed)
    && |b.queue| <= |a.queue| && b.queue == a.queue[|a.queue| - |b.queue|..]
  }

  // ---------- Broadcasting ----------

  /** The handles that `retain` keeps and the channels afterwards; a handle may be registered twice. */
  function Broadcast(peers: seq<Handle>, cs: Channels, f: Frame): (seq<Handle>, Channels)
  {
    if peers == [] then ([], cs) else
      var (kept, after) := Broadcast(peers[..|peers| - 1], cs, f);
      var h := peers[|peers| - 1];
      (if CanSend(after, h) then kept + [h] else kept, TrySend(after, h, f))
  }

  /** The last frame that this loop got through to the handle. */
  predicate LastSent(cs: Channels, h: Handle, f: Frame)
  {
    h in cs && cs[h].log != [] && cs[h].log[|cs[h].log| - 1] == f
  }

  lemma TrySendLogs(cs: Channels, h: Handle, f: Frame, x: Handle)
    ensures h == x && CanSend(cs, h) ==> LastSent(TrySend(cs, h, f), x, f)
    ensures h != x || !CanSend(cs, h) ==>
              (x in TrySend(cs, h, f) <==> x in cs) && (x in cs ==> TrySend(cs, h, f)[x] == cs[x])
  {
  }

  /**
   After a broadcast every handle that was kept was last sent the new frame, and every handle that was
   dropped has a full or closed channel.
   */
  lemma {:induction false} BroadcastReaches(peers: seq<Handle>, cs: Channels, f: Frame, h: Handle)
    ensures h in Broadcast(peers, cs, f).0 ==> h in peers && LastSent(Broadcast(peers, cs, f).1, h, f)
    ensures h in peers && h !in Broadcast(peers, cs, f).0 ==> !CanSend(Broadcast(peers, cs, f).1, h)
  {
    if peers == [] {
    } else {
      var init, last := peers[..|peers| - 1], peers[|peers| - 1];
      BroadcastReaches(init, cs, f, h);
      var before, all := Broadcast(init, cs, f), Broadcast(peers, cs, f);
      assert h in peers <==> h in init || h == last;
      assert h in all.0 <==> h in before.0 || (h == last && CanSend(before.1, last));
      TrySendLogs(before.1, last, f, h);
    }
  }

  /** A broadcast adds nothing but copies of its frame to any log. */
  lemma {:induction false} BroadcastAdds(peers: seq<Handle>, cs: Channels, f: Frame, h: Handle, g: Frame)
    requires h in Broadcast(peers, cs, f).1 && g in Broadcast(peers, cs, f).1[h].log
    ensures g == f || (h in cs && g in cs[h].log)
  {
    if peers == [] {
    } else {
      var init, last := peers[..|peers| - 1], peers[|peers| - 1];
      var before := Broadcast(init, cs, f).1;
      TrySendLogs(before, last, f, h);
      if h in before && g in before[h].log {
        BroadcastAdds(init, cs, f, h, g);
      }
    }
  }

  function SendAll(cs: Channels, h: Handle, fs: seq<Frame>): Channels
  {
    if fs == [] then cs else TrySend(SendAll(cs, h, fs[..|fs| - 1]), h, fs[|fs| - 1])
  }

  /**
   While nobody drains it, an open channel takes frames until it is full: of a series of sends exactly the
   first ones that fit get through, in order.
   */
  lemma {:induction false} ChannelFillsUp(cs: Channels, h: Handle, fs: seq<Frame>)
    requires h in cs && !cs[h].closed && |cs[h].queue| <= cs[h].capacity
    ensures var room, after := cs[h].capacity - |cs[h].queue|, SendAll(cs, h, fs);
            var taken := if |fs| <= room then fs else fs[..room];
            && h in after && !after[h].closed && after[h].capacity == cs[h].capacity
            && after[h].queue == cs[h].queue + taken && after[h].log == cs[h].log + taken
  {
    if fs != [] {
      var n := |fs| - 1;
      ChannelFillsUp(cs, h, fs[..n]);
      var room := cs[h].capacity - |cs[h].queue|;
      if n < room {
        assert fs[..n] + [fs[n]] == fs;
        assert cs[h].queue + fs[..n] + [fs[n]] == cs[h].queue + fs;
        assert cs[h].log + fs[..n] + [fs[n]] == cs[h].log + fs;
      } else {
        assert fs[..n][..room] == fs[..room];
        assert n == room ==> fs[..n] == fs[..room];
      }
    }
  }

  // ---------- The event loop ----------

  datatype State = State(watch: StreamSettings, unseen: bool, current: StreamSettings, frame: Frame,
                         peers: seq<Handle>, channels: Channels)

  datatype Event =
    | LocalSet(settings: StreamSettings)   // another task changes the watched value
    | Changed(overtaken: bool)             // the loop sees a change; another one may land before it reads
    | Inbound(bytes: Frame)
    | Register(handle: Handle)
    | Environment(channels: Channels)      // receivers drain or close their channels

  predicate Enabled(s: State, e: Event)
  {
    && (e.Changed? ==> s.unseen)
    && (e.Environment? ==> Evolves(s.channels, e.channels))
  }

  function Next(s: State, e: Event): State
    requires Enabled(s, e)
  {
    match e
    case LocalSet(settings) => s.(watch := settings, unseen := true)
    case Changed(overtaken) =>
      var f := Encode(s.watch);
      var b := Broadcast(s.peers, s.channels, f);
      s.(unseen := overtaken, current := s.watch, frame := f, peers := b.0, channels := b.1)
    case Inbound(bytes) =>
      (match ParseFrame(bytes)
       case None => s
       case Some(settings) => s.(current := Apply(s.current, settings), unseen := false))
    case Register(h) => s.(channels := TrySend(s.channels, h, s.frame), peers := s.peers + [h])
    case Environment(cs) => s.(channels := cs)
  }

  /** The loop starts by reading the watch without marking it as seen. */
  function Initial(watch: StreamSettings, unseen: bool, cs: Channels): State
  {
    State(watch, unseen, watch, Encode(watch), [], cs)
  }

  predicate Follows(a: State, e: Event, b: State)
  {
    Enabled(a, e) && b == Next(a, e)
  }

  predicate IsExecution(es: seq<Event>, xs: seq<State>)
  {
    && |xs| == |es| + 1
    && xs[0] == Initial(xs[0].watch, xs[0].unseen, xs[0].channels)
    && (forall h :: h in xs[0].channels ==> xs[0].channels[h].log == [])
    && forall i :: 0 <= i < |es| ==> Follows(xs[i], es[i], xs[i + 1])
  }

  /** The watched value at the last change the loop saw, or at its start. */
  function LastObserved(es: seq<Event>, xs: seq<State>, k: nat): StreamSettings
    requires |xs| == |es| + 1 && k <= |es|
  {
    if k == 0 then xs[0].watch
    else if es[k - 1].Changed? then xs[k - 1].watch
    else LastObserved(es, xs, k - 1)
  }

  /** The broadcast frame always encodes the last observed local settings, whatever arrives inbound. */
  lemma {:induction false} FrameEncodesObserved(es: seq<Event>, xs: seq<State>, k: nat)
    requires IsExecution(es, xs) && k <= |es|
    ensures xs[k].frame == Encode(LastObserved(es, xs, k))
  {
    if k == 0 {
    } else {
      FrameEncodesObserved(es, xs, k - 1);
      assert Follows(xs[k - 1], es[k - 1], xs[k]);
    }
  }

  /** After each local change every remaining peer was last sent the frame of the new settings. */
  lemma ChangeReachesPeers(s: State, overtaken: bool)
    requires Enabled(s, Changed(overtaken))
    ensures var n := Next(s, Changed(overtaken));
            && (forall h :: h in n.peers ==> LastSent(n.channels, h, Encode(s.watch)))
            && (forall h :: h in s.peers && h !in n.peers ==> !CanSend(n.channels, h))
  {
    var n := Next(s, Changed(overtaken));
    forall h | h in s.peers || h in n.peers
      ensures if h in n.peers then LastSent(n.channels, h, Encode(s.watch)) else !CanSend(n.channels, h)
    {
      BroadcastReaches(s.peers, s.channels, Encode(s.watch), h);
    }
  }

  // ---------- What the peers were sent ----------

  /** A registration at step `j` that the handle's channel refused. */
  predicate Refused(es: seq<Event>, xs: seq<State>, h: Handle, j: nat)
    requires j < |es| < |xs|
  {
    es[j] == Register(h) && !CanSend(xs[j].channels, h)
  }

  /** Such a registration with no change seen since. */
  ghost predicate RefusedSinceChange(es: seq<Event>, xs: seq<State>, k: nat, h: Handle)
    requires k <= |es| < |xs|
  {
    exists j :: 0 <= j < k && Refused(es, xs, h, j) && forall i :: j < i < k ==> !es[i].Changed?
  }

  lemma RefusalLasts(es: seq<Event>, xs: seq<State>, k: nat, h: Handle)
    requires k < |es| < |xs| && !es[k].Changed?
    ensures RefusedSinceChange(es, xs, k, h) || Refused(es, xs, h, k) ==> RefusedSinceChange(es, xs, k + 1, h)
  {
    if Refused(es, xs, h, k) {
      assert RefusedSinceChange(es, xs, k + 1, h);
    } else if RefusedSinceChange(es, xs, k, h) {
      var j :| 0 <= j < k && Refused(es, xs, h, j) && forall i :: j < i < k ==> !es[i].Changed?;
      assert RefusedSinceChange(es, xs, k + 1, h);
    }
  }

  /** Steps other than a change keep what a handle was last sent, unless they send it the frame again. */
  lemma StepKeepsSent(s: State, e: Event, h: Handle)
    requires Enabled(s, e) && !e.Changed?
    ensures Next(s, e).frame == s.frame
    ensures LastSent(s.channels, h, s.frame) ==> LastSent(Next(s, e).channels, h, s.frame)
    ensures e == Register(h) && CanSend(s.channels, h) ==> LastSent(Next(s, e).channels, h, s.frame)
  {
    if e.Register? {
      TrySendLogs(s.channels, e.handle, s.frame, h);
    }
  }

  /**
   In every run the last frame that got through to a registered handle is the current one, unless its
   channel refused the frame at a registration since the last change.
   */
  lemma {:induction false} PeersCurrent(es: seq<Event>, xs: seq<State>, k: nat, h: Handle)
    requires IsExecution(es, xs) && k <= |es|
    ensures h in xs[k].peers ==> LastSent(xs[k].channels, h, xs[k].frame) || RefusedSinceChange(es, xs, k, h)
  {
    if k == 0 {
    } else {
      PeersCurrent(es, xs, k - 1, h);
      var s, e := xs[k - 1], es[k - 1];
      assert Follows(s, e, xs[k - 1 + 1]);
      if e.Changed? {
        BroadcastReaches(s.peers, s.channels, Encode(s.watch), h);
      } else {
        StepKeepsSent(s, e, h);
        RefusalLasts(es, xs, k - 1, h);
      }
    }
  }

  /** The settings of the last local change, or the initial ones. */
  function LastSet(es: seq<Event>, xs: seq<State>, k: nat): StreamSettings
    requires |xs| == |es| + 1 && k <= |es|
  {
    if k == 0 then xs[0].watch
    else if es[k - 1].LocalSet? then es[k - 1].settings
    else LastSet(es, xs, k - 1)
  }

  /** Nothing but local changes ever reaches the watched value: inbound frames are not published on it. */
  lemma {:induction false} WatchIsLastSet(es: seq<Event>, xs: seq<State>, k: nat)
    requires IsExecution(es, xs) && k <= |es|
    ensures xs[k].watch == LastSet(es, xs, k)
  {
    if k > 0 {
      WatchIsLastSet(es, xs, k - 1);
      assert Follows(xs[k - 1], es[k - 1], xs[k - 1 + 1]);
    }
  }

  /** A frame of the initial settings, or of those of a local change before step `k`. */
  ghost predicate Configured(es: seq<Event>, xs: seq<State>, k: nat, f: Frame)
    requires k <= |es| < |xs|
  {
    f == Encode(xs[0].watch) || exists j :: 0 <= j < k && es[j].LocalSet? && f == Encode(es[j].settings)
  }

  lemma {:induction false} LastSetConfigured(es: seq<Event>, xs: seq<State>, k: nat)
    requires |xs| == |es| + 1 && k <= |es|
    ensures Configured(es, xs, k, Encode(LastSet(es, xs, k)))
  {
    if k > 0 && !es[k - 1].LocalSet? {
      LastSetConfigured(es, xs, k - 1);
    }
  }

  /**
   Inbound frames stay private: in every run whatever gets through to a handle encodes the initial settings
   or those of a local change, never the loop's merged view.
   */
  lemma {:induction false} OnlyLocalSettingsSent(es: seq<Event>, xs: seq<State>, k: nat, h: Handle, f: Frame)
    requires IsExecution(es, xs) && k <= |es|
    requires f == xs[k].frame || (h in xs[k].channels && f in xs[k].channels[h].log)
    ensures Configured(es, xs, k, f)
  {
    if k > 0 {
      var s, e := xs[k - 1], es[k - 1];
      assert Follows(s, e, xs[k - 1 + 1]);
      if e.Changed? && f == Encode(s.watch) {
        WatchIsLastSet(es, xs, k - 1);
        LastSetConfigured(es, xs, k - 1);
      } else {
        StepAdds(s, e, h, f);
        OnlyLocalSettingsSent(es, xs, k - 1, h, f);
      }
    }
  }

  /** The merged view does differ: an inbound frame with other settings changes only the private copy. */
  lemma MergedViewStaysPrivate(a: StreamSettings, b: StreamSettings, unseen: bool, cs: Channels)
    requires a != b
    ensures var s := Next(Initial(a, unseen, cs), Inbound(Encode(b)));
            s.current == b && s.watch == a && s.frame == Encode(a) && s.frame != Encode(s.current)
  {
    SettingsRoundTrip(a, b);
    EncodeInjective(a, b);
  }

  /** The settings of all well-formed frames that arrived since the last change the loop saw. */
  function MergedSince(es: seq<Event>, k: nat): seq<Setting>
    requires k <= |es|
  {
    if k == 0 || es[k - 1].Changed? then [] else
      var merged := MergedSince(es, k - 1);
      if es[k - 1].Inbound? && ParseFrame(es[k - 1].bytes).Some?
      then merged + ParseFrame(es[k - 1].bytes).value else merged
  }

  lemma {:induction false} ApplyConcat(s: StreamSettings, a: seq<Setting>, b: seq<Setting>)
    ensures Apply(s, a + b) == Apply(Apply(s, a), b)
  {
    if b == [] {
      assert a + b == a;
    } else {
      ApplyConcat(s, a, b[..|b| - 1]);
      assert (a + b)[..|a + b| - 1] == a + b[..|b| - 1];
    }
  }

  /** The private copy: the settings observed last, overridden by the last value given for each since then. */
  lemma PrivateIsMerged(es: seq<Event>, xs: seq<State>, k: nat)
    requires IsExecution(es, xs) && k <= |es|
    ensures var seen, given, private := LastObserved(es, xs, k), MergedSince(es, k), xs[k].current;
            && private.maxStreams == LastValue(given, 1, seen.maxStreams)
            && private.maxData == LastValue(given, 2, seen.maxData)
            && private.idleTimeout == LastValue(given, 3, seen.idleTimeout) % 0x1_0000
            && (private.pqSupported <==> LastValue(given, 4, if seen.pqSupported then 1 else 0) != 0)
  {
    PrivateIsApplied(es, xs, k);
    ApplyIsLastValue(LastObserved(es, xs, k), MergedSince(es, k));
  }

  lemma {:induction false} PrivateIsApplied(es: seq<Event>, xs: seq<State>, k: nat)
    requires IsExecution(es, xs) && k <= |es|
    ensures xs[k].current == Apply(LastObserved(es, xs, k), MergedSince(es, k))
  {
    if k > 0 {
      PrivateIsApplied(es, xs, k - 1);
      PrivateStep(es, xs, k - 1);
    }
  }

  lemma PrivateStep(es: seq<Event>, xs: seq<State>, k: nat)
    requires IsExecution(es, xs) && k < |es|
    requires xs[k].current == Apply(LastObserved(es, xs, k), MergedSince(es, k))
    ensures xs[k + 1].current == Apply(LastObserved(es, xs, k + 1), MergedSince(es, k + 1))
  {
    assert Follows(xs[k], es[k], xs[k + 1]);
    if es[k].Inbound? && ParseFrame(es[k].bytes).Some? {
      ApplyConcat(LastObserved(es, xs, k), MergedSince(es, k), ParseFrame(es[k].bytes).value);
    }
  }

  /** Every frame that is new in a log, or as the current one, was the current one or is the watched value's. */
  lemma StepAdds(s: State, e: Event, h: Handle, f: Frame)
    requires Enabled(s, e) && (e.Changed? ==> f != Encode(s.watch))
    requires f == Next(s, e).frame || (h in Next(s, e).channels && f in Next(s, e).channels[h].log)
    ensures f == s.frame || (h in s.channels && f in s.channels[h].log)
  {
    if e.Changed? {
      BroadcastAdds(s.peers, s.channels, Encode(s.watch), h, f);
    } else if e.Register? {
      TrySendLogs(s.channels, e.handle, s.frame, h);
    }
  }

  // ---------- Waiting changes ----------

  /** The step leaves a change that the loop has not seen. */
  predicate Announces(e: Event)
  {
    e.LocalSet? || (e.Changed? && e.overtaken)
  }

  /** The step marks whatever waits as seen. */
  predicate Consumes(e: Event)
  {
    (e.Changed? && !e.overtaken) || (e.Inbound? && |e.bytes| % 6 == 0)
  }

  /** Something announced, or waiting at the start, has not been consumed before step `k`. */
  ghost predicate Waiting(es: seq<Event>, xs: seq<State>, k: nat)
    requires k <= |es| < |xs|
  {
    || (xs[0].unseen && forall i :: 0 <= i < k ==> !Consumes(es[i]))
    || AnnouncedSince(es, k)
  }

  ghost predicate AnnouncedSince(es: seq<Event>, k: nat)
    requires k <= |es|
  {
    exists j :: 0 <= j < k && Announces(es[j]) && forall i :: j < i < k ==> !Consumes(es[i])
  }

  lemma AnnouncedStep(es: seq<Event>, k: nat)
    requires k < |es|
    ensures AnnouncedSince(es, k + 1) <==> Announces(es[k]) || (AnnouncedSince(es, k) && !Consumes(es[k]))
  {
    if AnnouncedSince(es, k + 1) {
      var j :| 0 <= j < k + 1 && Announces(es[j]) && forall i :: j < i < k + 1 ==> !Consumes(es[i]);
      assert j < k ==> AnnouncedSince(es, k);
    }
    if AnnouncedSince(es, k) && !Consumes(es[k]) {
      var j :| 0 <= j < k && Announces(es[j]) && forall i :: j < i < k ==> !Consumes(es[i]);
      assert forall i :: j < i < k + 1 ==> !Consumes(es[i]);
    }
  }

  /** The loop finds a change to broadcast exactly if one was announced and neither seen nor swallowed since. */
  lemma {:induction false} SeesIffWaiting(es: seq<Event>, xs: seq<State>, k: nat)
    requires IsExecution(es, xs) && k <= |es|
    ensures xs[k].unseen <==> Waiting(es, xs, k)
  {
    if k > 0 {
      SeesIffWaiting(es, xs, k - 1);
      AnnouncedStep(es, k - 1);
      assert Follows(xs[k - 1], es[k - 1], xs[k - 1 + 1]);
      if es[k - 1].Inbound? {
        BuildParse(es[k - 1].bytes);
      }
    }
  }

  // ---------- Lost updates ----------

  /** With no change waiting to be seen, what is broadcast is what is configured. */
  ghost predicate UpToDate(s: State)
  {
    !s.unseen ==> s.frame == Encode(s.watch)
  }

  /** A well-formed inbound frame marks a waiting change as seen whose settings were not broadcast. */
  predicate Swallows(s: State, e: Event)
  {
    e.Inbound? && |e.bytes| % 6 == 0 && s.frame != Encode(s.watch)
  }

  /** Any step but a new local change: it leaves the broadcast stale if it was stale or swallows a change. */
  lemma StaleStep(s: State, e: Event)
    requires Enabled(s, e)
    ensures !UpToDate(Next(s, e)) <==> !e.LocalSet? && (!UpToDate(s) || Swallows(s, e))
  {
    if e.Inbound? {
      BuildParse(e.bytes);
    }
  }

  /** Before step `k` a change was swallowed and no new one was made since. */
  ghost predicate SwallowedSinceSet(es: seq<Event>, xs: seq<State>, k: nat)
    requires k <= |es| < |xs|
  {
    exists j :: 0 <= j < k && Swallows(xs[j], es[j]) && forall i :: j < i < k ==> !es[i].LocalSet?
  }

  lemma SwallowedEarlier(es: seq<Event>, xs: seq<State>, k: nat)
    requires k < |es| < |xs|
    ensures SwallowedSinceSet(es, xs, k + 1) ==>
              Swallows(xs[k], es[k]) || (SwallowedSinceSet(es, xs, k) && !es[k].LocalSet?)
  {
    if SwallowedSinceSet(es, xs, k + 1) {
      var j :| 0 <= j < k + 1 && Swallows(xs[j], es[j]) && forall i :: j < i < k + 1 ==> !es[i].LocalSet?;
      if j < k {
        assert SwallowedSinceSet(es, xs, k);
      }
    }
  }

  lemma SwallowedLasts(es: seq<Event>, xs: seq<State>, k: nat)
    requires k < |es| < |xs| && SwallowedSinceSet(es, xs, k) && !es[k].LocalSet?
    ensures SwallowedSinceSet(es, xs, k + 1)
  {
    var j :| 0 <= j < k && Swallows(xs[j], es[j]) && forall i :: j < i < k ==> !es[i].LocalSet?;
    assert forall i :: j < i < k + 1 ==> !es[i].LocalSet?;
  }

  lemma SwallowedStep(es: seq<Event>, xs: seq<State>, k: nat)
    requires k < |es| < |xs|
    ensures SwallowedSinceSet(es, xs, k + 1) <==>
            Swallows(xs[k], es[k]) || (SwallowedSinceSet(es, xs, k) && !es[k].LocalSet?)
  {
    SwallowedEarlier(es, xs, k);
    if SwallowedSinceSet(es, xs, k) && !es[k].LocalSet? {
      SwallowedLasts(es, xs, k);
    } else if Swallows(xs[k], es[k]) {
      assert SwallowedSinceSet(es, xs, k + 1);
    }
  }

  /**
   In every run the broadcast is stale exactly when some inbound frame swallowed a change and no local
   change was made since; and exactly when nothing waits to be seen and the configured settings are not
   the ones observed last.
   */
  lemma {:induction false} StaleIffSwallowed(es: seq<Event>, xs: seq<State>, k: nat)
    requires IsExecution(es, xs) && k <= |es|
    ensures !UpToDate(xs[k]) <==> SwallowedSinceSet(es, xs, k)
    ensures !UpToDate(xs[k]) <==> !xs[k].unseen && xs[k].watch != LastObserved(es, xs, k)
  {
    FrameEncodesObserved(es, xs, k);
    EncodeInjective(LastObserved(es, xs, k), xs[k].watch);
    if k > 0 {
      StaleIffSwallowed(es, xs, k - 1);
      assert Follows(xs[k - 1], es[k - 1], xs[k - 1 + 1]);
      StaleStep(xs[k - 1], es[k - 1]);
      SwallowedStep(es, xs, k - 1);
    }
  }

  /** An empty inbound frame right after a local change makes the change invisible to every peer. */
  lemma LostUpdate(a: StreamSettings, b: StreamSettings, cs: Channels)
    requires a != b
    ensures var s := Next(Next(Initial(a, false, cs), LocalSet(b)), Inbound([]));
            s.watch == b && !s.unseen && s.frame == Encode(a) && s.frame != Encode(b)
  {
    EncodeInjective(a, b);
  }

  // ---------- The mutable loop state ----------

  class Synchroniser {
    var peers: seq<Handle>
    var current: StreamSettings
    var frame: Frame

    constructor (watch: StreamSettings)
      ensures peers == [] && current == watch && frame == Encode(watch)
    {
      peers, current, frame := [], watch, Encode(watch);
    }

    method OnChanged(watch: StreamSettings, channels: Channels) returns (after: Channels)
      modifies this
      ensures current == watch && frame == Encode(watch)
      ensures (peers, after) == Broadcast(old(peers), channels, Encode(watch))
    {
      current, frame, after := watch, Encode(watch), channels;
      var kept := [];
      for i := 0 to |peers|
        invariant (kept, after) == Broadcast(peers[..i], channels, frame)
      {
        assert peers[..i + 1][..i] == peers[..i];
        if CanSend(after, peers[i]) {
          kept := kept + [peers[i]];
        }
        after := TrySend(after, peers[i], frame);
      }
      assert peers[..|peers|] == peers;
      peers := kept;
    }

    /** Tells whether the watch is marked as seen. */
    method OnInbound(bytes: Frame) returns (seen: bool)
      modifies this`current
      ensures seen <==> ParseFrame(bytes).Some?
      ensures current == if seen then Apply(old(current), ParseFrame(bytes).value) else old(current)
    {
      var parsed := ParseSettingsFrame(bytes);
      seen := parsed.Some?;
      if seen {
        current := Apply(current, parsed.value);
      }
    }

    method OnRegister(h: Handle, channels: Channels) returns (after: Channels)
      modifies this`peers
      ensures peers == old(peers) + [h] && after == TrySend(channels, h, frame)
    {
      after := TrySend(channels, h, frame);
      peers := peers + [h];
    }
  }
}
