/** drop_oldest under contention: when the three channel operations of one call
    can end in ErrQueueSaturated. */
module CollectorContention {
  import opened Domain
  import opened Config
  import opened CollectorModel
  import opened CollectorFates
  import opened CollectorCounts

  predicate Rejected(pc: CallPc, r: Route) {
    pc == CountReject(r) || pc == Saturated(r)
  }

  /** Places only a drop_oldest call reaches. */
  predicate OnlyOldest(pc: CallPc) {
    pc.MiddleSelect? || EvictedNotRetried(pc) || pc == RetrySend(AfterEmpty)
    || Rejected(pc, AfterEviction) || Rejected(pc, AfterEmpty)
  }

  /** What a call's window of sends between its middle select and its retry owes
      to the length of the channel. */
  ghost predicate WindowOk(s: State, i: nat)
    requires Shape(s) && i < |s.calls|
  {
    var pc := s.calls[i];
    && (EvictedNotRetried(pc) ==>
          s.mark[i] <= |s.sent| && |s.queue| + 1 <= s.capacity + (|s.sent| - s.mark[i]))
    && (pc == RetrySend(AfterEmpty) ==> s.mark[i] <= |s.sent| && |s.queue| <= |s.sent| - s.mark[i])
    && (Rejected(pc, AfterEviction) ==> s.mark[i] < s.stop[i] <= |s.sent|)
    && (Rejected(pc, AfterEmpty) ==> s.mark[i] + s.capacity <= s.stop[i] <= |s.sent|)
    && (OnlyOldest(pc) ==> s.evicts)
    && (Rejected(pc, Direct) ==> !s.evicts)
    && pc != RetrySend(Direct)
  }

  ghost predicate WindowInv(s: State) {
    && Shape(s) && s.capacity > 0 && |s.queue| <= s.capacity
    && (forall i: nat :: i < |s.calls| ==> WindowOk(s, i))
  }

  /** Sends lengthen the channel by one each, everything else never lengthens it. */
  ghost predicate ChannelBound(s: State, s': State) {
    s'.capacity == s.capacity && s'.evicts == s.evicts && |s'.sent| >= |s.sent|
    && |s'.queue| - |s.queue| <= |s'.sent| - |s.sent| && |s'.queue| <= s'.capacity
  }

  lemma WindowElsewhere(s: State, s': State, i: nat)
    requires Shape(s) && Shape(s') && i < |s.calls| && i < |s'.calls| && WindowOk(s, i)
    requires ChannelBound(s, s') && s'.calls[i] == s.calls[i] && s'.mark[i] == s.mark[i] && s'.stop[i] == s.stop[i]
    ensures WindowOk(s', i)
  {
  }

  lemma ProducerElsewhere(s: State, i: nat)
    requires WindowInv(s) && Enabled(s, Producer(i))
    ensures ChannelBound(s, ProducerNext(s, i)) && OnlyCallMoves(s, ProducerNext(s, i), i)
  {
    CallMoves(s, i);
  }

  lemma RetryWindow(s: State, i: nat)
    requires WindowInv(s) && Enabled(s, Producer(i)) && s.calls[i].RetrySend?
    ensures |ProducerNext(s, i).calls| == |s.calls| && Shape(ProducerNext(s, i)) && WindowOk(ProducerNext(s, i), i)
  {
    assert WindowOk(s, i);
    match s.calls[i].route {
      case Direct => case AfterEviction => case AfterEmpty => case AfterClosed =>
    }
  }

  lemma RejectWindow(s: State, i: nat)
    requires WindowInv(s) && Enabled(s, Producer(i)) && s.calls[i].CountReject?
    ensures |ProducerNext(s, i).calls| == |s.calls| && Shape(ProducerNext(s, i)) && WindowOk(ProducerNext(s, i), i)
  {
    assert WindowOk(s, i);
    match s.calls[i].route {
      case Direct => case AfterEviction => case AfterEmpty => case AfterClosed =>
    }
  }

  lemma SelectWindow(s: State, i: nat)
    requires WindowInv(s) && Enabled(s, Producer(i)) && (s.calls[i].FirstSend? || s.calls[i].MiddleSelect?)
    ensures |ProducerNext(s, i).calls| == |s.calls| && Shape(ProducerNext(s, i)) && WindowOk(ProducerNext(s, i), i)
  {
    assert WindowOk(s, i);
  }

  lemma CountWindow(s: State, i: nat)
    requires WindowInv(s) && Enabled(s, Producer(i))
    requires s.calls[i].CountEmpty? || s.calls[i].CountEviction? || s.calls[i].CountClosedReceive? || s.calls[i].CountIngest?
    ensures |ProducerNext(s, i).calls| == |s.calls| && Shape(ProducerNext(s, i)) && WindowOk(ProducerNext(s, i), i)
  {
    assert WindowOk(s, i);
  }

  lemma ProducerWindow(s: State, i: nat)
    requires WindowInv(s) && Enabled(s, Producer(i))
    ensures |ProducerNext(s, i).calls| == |s.calls| && Shape(ProducerNext(s, i)) && WindowOk(ProducerNext(s, i), i)
  {
    match s.calls[i] {
      case RetrySend(_) => RetryWindow(s, i);
      case CountReject(_) => RejectWindow(s, i);
      case FirstSend => SelectWindow(s, i);
      case MiddleSelect => SelectWindow(s, i);
      case _ => CountWindow(s, i);
    }
  }

  lemma ProducerKeepsWindow(s: State, i: nat)
    requires WindowInv(s) && Enabled(s, Producer(i))
    ensures WindowInv(ProducerNext(s, i))
  {
    var s' := ProducerNext(s, i);
    ProducerElsewhere(s, i);
    ProducerWindow(s, i);
    forall k: nat | k < |s'.calls| ensures WindowOk(s', k) {
      if k != i {
        assert WindowOk(s, k);
        WindowElsewhere(s, s', k);
      }
    }
  }

  lemma OtherKeepsWindow(s: State, s': State)
    requires WindowInv(s) && ChannelBound(s, s')
    requires s'.calls == s.calls && s'.mark == s.mark && s'.stop == s.stop && s'.payloads == s.payloads
    ensures WindowInv(s')
  {
    forall k: nat | k < |s'.calls| ensures WindowOk(s', k) {
      assert WindowOk(s, k);
      WindowElsewhere(s, s', k);
    }
  }

  lemma BeginKeepsWindow(s: State, raw: Bytes)
    requires WindowInv(s)
    ensures WindowInv(Next(s, Begin(raw)))
  {
    var s' := Next(s, Begin(raw));
    forall k: nat | k < |s'.calls| ensures WindowOk(s', k) {
      if k < |s.calls| {
        assert WindowOk(s, k);
        WindowElsewhere(s, s', k);
      }
    }
  }

  lemma WindowStep(s: State, step: Step)
    requires WindowInv(s) && Enabled(s, step)
    ensures WindowInv(Next(s, step))
  {
    match step {
      case Begin(raw) => BeginKeepsWindow(s, raw);
      case Producer(i) => ProducerKeepsWindow(s, i);
      case Worker(w, ok) =>
        WorkerOnly(s, w, ok);
        WorkerChannel(s, w, ok);
        OtherKeepsWindow(s, Next(s, step));
      case _ => OtherKeepsWindow(s, Next(s, step));
    }
  }

  lemma {:induction false} PathWindow(a: State, steps: seq<Step>, b: State)
    requires WindowInv(a) && Path(a, steps, b)
    ensures WindowInv(b)
    decreases |steps|
  {
    if steps != [] {
      WindowStep(a, steps[0]);
      PathWindow(Next(a, steps[0]), steps[1..], b);
    }
  }

  lemma ReachableWindow(cfg: BackpressureConfig, s: State)
    requires Reachable(cfg, s)
    ensures WindowInv(s)
  {
    var steps :| Path(Init(cfg), steps, s);
    PathWindow(Init(cfg), steps, s);
  }

  /** A saturated call under drop_oldest: between its middle select and its
      retry, other calls (each at most once) completed sends; at least one, and
      at least as many as the channel has slots if it had found it empty. Under
      drop_newest, and only there, the first select decides. */
  lemma SaturationNeedsContention(cfg: BackpressureConfig, s: State, i: nat)
    requires Reachable(cfg, s) && i < |s.calls| && s.calls[i].Saturated?
    ensures Shape(s) && s.capacity > 0
    ensures s.calls[i].route != Direct <==> s.evicts
    ensures s.evicts ==> s.mark[i] < s.stop[i] <= |s.sent|
    ensures s.evicts && s.calls[i].route == AfterEmpty ==> s.stop[i] - s.mark[i] >= s.capacity
    ensures forall k :: 0 <= k < |s.sent| ==> s.sent[k].call != i
    ensures forall k, l :: 0 <= k < l < |s.sent| ==> s.sent[k].call != s.sent[l].call
  {
    ReachableWindow(cfg, s);
    ReachableInv(cfg, s);
    assert WindowOk(s, i) && ClosedOk(s.calls[i], s.closed);
    match s.calls[i].route {
      case Direct => case AfterEviction => case AfterEmpty => case AfterClosed =>
    }
    forall k | 0 <= k < |s.sent| ensures WasSent(s, s.sent[k]) && s.sent[k].call != i {
      assert s.sent[k] in s.sent;
      assert JobOk(s, s.sent[k]);
    }
    forall k, l | 0 <= k < l < |s.sent| ensures s.sent[k].call != s.sent[l].call {
      assert JobOk(s, s.sent[k]) && WasSent(s, s.sent[k]) && WasSent(s, s.sent[l]);
      if s.sent[k] == s.sent[l] {
        CountTwice(s.sent, l, k);
      }
    }
  }

  // ---- a lone producer -------------------------------------------------------

  /** Calls are made one after the other, each after the previous returned. */
  ghost predicate OneAtATime(a: State, steps: seq<Step>)
    decreases |steps|
  {
    steps == [] ||
    (Enabled(a, steps[0]) && (steps[0].Begin? ==> AllDone(a)) && OneAtATime(Next(a, steps[0]), steps[1..]))
  }

  ghost predicate LoneOk(s: State, i: nat)
    requires Shape(s) && i < |s.calls|
  {
    var pc := s.calls[i];
    && (i < |s.calls| - 1 ==> CallDone(pc))
    && !pc.CountReject? && !pc.Saturated?
    && (EvictedNotRetried(pc) || pc == RetrySend(AfterEmpty) ==> s.mark[i] == |s.sent|)
  }

  ghost predicate LoneInv(s: State) {
    Shape(s) && s.evicts && forall i: nat :: i < |s.calls| ==> LoneOk(s, i)
  }

  ghost predicate RetriesOpen(s: State) {
    forall i :: 0 <= i < |s.calls| ==> ClosedOk(s.calls[i], s.closed)
  }

  lemma LoneProducerStep(s: State, i: nat)
    requires WindowInv(s) && LoneInv(s) && RetriesOpen(s) && Enabled(s, Producer(i))
    ensures LoneInv(ProducerNext(s, i))
  {
    var s' := ProducerNext(s, i);
    assert LoneOk(s, i) && WindowOk(s, i) && ClosedOk(s.calls[i], s.closed);
    CallMoves(s, i);
    match s.calls[i] {
      case RetrySend(r) => match r { case Direct => case AfterEviction => case AfterEmpty => case AfterClosed => }
      case _ =>
    }
    forall k: nat | k < |s'.calls| ensures LoneOk(s', k) {
      assert LoneOk(s, k);
    }
  }

  lemma LoneStep(s: State, step: Step)
    requires WindowInv(s) && LoneInv(s) && RetriesOpen(s) && Enabled(s, step)
    requires step.Begin? ==> AllDone(s)
    ensures LoneInv(Next(s, step))
  {
    var s' := Next(s, step);
    match step {
      case Producer(i) => LoneProducerStep(s, i);
      case _ =>
        forall k: nat | k < |s'.calls| ensures LoneOk(s', k) {
          if k < |s.calls| {
            assert LoneOk(s, k);
          }
        }
    }
  }

  lemma {:induction false} LonePath(a: State, steps: seq<Step>, b: State)
    requires WindowInv(a) && LoneInv(a) && Inv(a) && Path(a, steps, b) && OneAtATime(a, steps)
    ensures LoneInv(b)
    decreases |steps|
  {
    if steps != [] {
      LoneStep(a, steps[0]);
      WindowStep(a, steps[0]);
      FateStep(a, steps[0]);
      CountStep(a, steps[0]);
      LonePath(Next(a, steps[0]), steps[1..], b);
    }
  }

  /** Under drop_oldest a lone producer never sees a saturated queue, whatever
      the workers and Shutdown do meanwhile. */
  lemma LoneProducerNeverSaturates(cfg: BackpressureConfig, steps: seq<Step>, s: State, i: nat)
    requires Usable(cfg) && Evicts(cfg)
    requires Path(Init(cfg), steps, s) && OneAtATime(Init(cfg), steps)
    requires i < |s.calls|
    ensures !s.calls[i].Saturated? && !s.calls[i].CountReject?
  {
    InitInv(cfg);
    LonePath(Init(cfg), steps, s);
    assert LoneOk(s, i);
  }
}
