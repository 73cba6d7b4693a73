/** When exactly a drop_oldest call is rejected, and runs in which it is. */
module CollectorSaturation {
  import opened Config
  import opened CollectorModel
  import opened CollectorFates
  import opened CollectorOrder
  import opened CollectorContention
  import opened CollectorSequential

  lemma ReachablePath(cfg: BackpressureConfig, a: State, steps: seq<Step>, s: State)
    requires Reachable(cfg, a) && Path(a, steps, s)
    ensures Reachable(cfg, s)
  {
    var xs :| Path(Init(cfg), xs, a);
    PathJoins(Init(cfg), a, s, xs, steps);
  }

  lemma QueueLength(cfg: BackpressureConfig, s: State)
    requires Reachable(cfg, s)
    ensures |s.queue| == |s.sent| - |s.departed|
  {
    ChannelIsFifo(cfg, s);
  }

  /** The retry of a call whose middle select led from `a` to `b`: on an open
      channel it is rejected exactly if what the middle select left in the
      channel, plus the sends since, less the departures since, fills it. */
  lemma RejectedIff(cfg: BackpressureConfig, a: State, b: State, steps: seq<Step>, s: State, i: nat)
    requires Reachable(cfg, a) && Enabled(a, Producer(i)) && a.calls[i].MiddleSelect?
    requires b == Next(a, Producer(i)) && Path(b, steps, s)
    requires i < |s.calls| && s.calls[i].RetrySend? && !s.closed
    ensures Enabled(s, Producer(i))
    ensures Next(s, Producer(i)).calls[i].CountReject?
            <==> |b.queue| + (|s.sent| - |b.sent|) - (|s.departed| - |b.departed|) == s.capacity
    ensures Next(s, Producer(i)).calls[i].CountReject? || Next(s, Producer(i)).calls[i].CountIngest?
  {
    OneStep(a, Producer(i));
    ReachablePath(cfg, a, [Producer(i)], b);
    ReachablePath(cfg, b, steps, s);
    QueueLength(cfg, b);
    QueueLength(cfg, s);
    ReachableWindow(cfg, s);
  }

  // ---- runs ------------------------------------------------------------------

  /** Later calls leave the earlier ones and everything but the channel alone. */
  ghost predicate Later(s: State, t: State) {
    && Shape(s) && Shape(t) && |s.calls| <= |t.calls|
    && t.calls[..|s.calls|] == s.calls && t.mark[..|s.calls|] == s.mark && t.stop[..|s.calls|] == s.stop
    && t.workers == s.workers && t.closed == s.closed && t.capacity == s.capacity && t.evicts == s.evicts
  }

  lemma OneMore(a: State, s: State) returns (t: State)
    requires Joined(a, s) && Shape(s) && !s.closed && |s.queue| < s.capacity
    ensures Joined(a, t) && Later(s, t)
    ensures |t.queue| == |s.queue| + 1 && |t.sent| == |s.sent| + 1
  {
    Extend(a, s, Begin([1]));
    var begun := Next(s, Begin([1]));
    Extend(a, begun, Producer(|s.calls|));
    t := Send(begun, |s.calls|, Direct);
  }

  lemma {:induction false} FillUp(a: State, s: State, n: nat) returns (t: State)
    requires Joined(a, s) && Shape(s) && !s.closed && |s.queue| + n <= s.capacity
    ensures Joined(a, t) && Later(s, t)
    ensures |t.queue| == |s.queue| + n && |t.sent| == |s.sent| + n
    decreases n
  {
    if n == 0 {
      t := s;
    } else {
      var mid := OneMore(a, s);
      t := FillUp(a, mid, n - 1);
      assert t.calls[..|s.calls|] == t.calls[..|mid.calls|][..|s.calls|];
      assert t.mark[..|s.calls|] == t.mark[..|mid.calls|][..|s.calls|];
      assert t.stop[..|s.calls|] == t.stop[..|mid.calls|][..|s.calls|];
    }
  }

  /** A call that finds the channel full and is at its middle select. */
  lemma AtMiddleSelect(a: State, s: State) returns (t: State)
    requires Joined(a, s) && Shape(s) && !s.closed && s.evicts && |s.queue| >= s.capacity
    ensures Joined(a, t) && Shape(t) && |t.calls| == |s.calls| + 1 && t.calls[|s.calls|] == MiddleSelect
    ensures t.queue == s.queue && t.sent == s.sent && t.workers == s.workers
    ensures !t.closed && t.capacity == s.capacity && t.evicts
  {
    Extend(a, s, Begin([1]));
    var begun := Next(s, Begin([1]));
    Extend(a, begun, Producer(|s.calls|));
    t := Next(begun, Producer(|s.calls|));
  }

  /** The retry on a full channel, and the count of the rejection. */
  lemma RejectRetry(a: State, s: State, i: nat, route: Route) returns (t: State)
    requires Joined(a, s) && Shape(s) && !s.closed && |s.queue| >= s.capacity
    requires i < |s.calls| && s.calls[i] == RetrySend(route)
    ensures Joined(a, t) && Shape(t) && |t.calls| == |s.calls| && t.calls[i] == Saturated(route)
    ensures t.mark == s.mark && t.stop == s.stop[i := |s.sent|] && t.sent == s.sent
    ensures t.capacity == s.capacity && t.evicts == s.evicts
  {
    Extend(a, s, Producer(i));
    var rejected := RetrySendNext(s, i, route);
    Extend(a, rejected, Producer(i));
    t := Next(rejected, Producer(i));
  }

  ghost predicate SaturatedBy(cfg: BackpressureConfig, s: State, i: nat, route: Route, sends: nat) {
    && Reachable(cfg, s) && s.evicts && i < |s.calls| && i < |s.mark| && i < |s.stop|
    && s.calls[i] == Saturated(route) && s.stop[i] == s.mark[i] + sends
  }

  /** Whatever the capacity, a call that has evicted a job can still be rejected:
      one send by another call in between is enough. */
  lemma EvictsAndIsRejected(cfg: BackpressureConfig) returns (s: State, i: nat)
    requires Usable(cfg) && Evicts(cfg)
    ensures SaturatedBy(cfg, s, i, AfterEviction, 1)
  {
    var s0 := Init(cfg);
    assert Path(s0, [], s0);
    var full := FillUp(s0, s0, s0.capacity);
    var middle := AtMiddleSelect(s0, full);
    i := |full.calls|;
    Extend(s0, middle, Producer(i));
    var evicted := Evict(middle, i);
    var refilled := OneMore(s0, evicted);
    assert refilled.calls[i] == evicted.calls[i] && refilled.mark[i] == evicted.mark[i];
    Extend(s0, refilled, Producer(i));
    var retry := Next(refilled, Producer(i));
    s := RejectRetry(s0, retry, i, AfterEviction);
  }

  /** Worker 0 takes the front job, which fails to parse. */
  lemma TakeOne(a: State, s: State) returns (t: State)
    requires Joined(a, s) && |s.workers| > 0 && s.workers[0].Receiving? && s.queue != []
    ensures Joined(a, t) && OnlyWorkerMoves(s, t, 0) && t.workers[0].Receiving? && t.queue == s.queue[1..]
  {
    Extend(a, s, Worker(0, false));
    var held := Receive(s, 0);
    Extend(a, held, Worker(0, false));
    var failed := End(held, 0, s.queue[0], ParseFailed);
    Extend(a, failed, Worker(0, false));
    t := Next(failed, Worker(0, false));
  }

  lemma {:induction false} TakeAll(a: State, s: State) returns (t: State)
    requires Joined(a, s) && |s.workers| > 0 && s.workers[0].Receiving?
    ensures Joined(a, t) && OnlyWorkerMoves(s, t, 0) && t.workers[0].Receiving? && t.queue == []
    decreases |s.queue|
  {
    if s.queue == [] {
      t := s;
    } else {
      var mid := TakeOne(a, s);
      t := TakeAll(a, mid);
    }
  }

  /** A call whose middle select finds the channel empty can be rejected after
      exactly as many sends as the channel has slots: the bound is attained. */
  lemma FindsEmptyAndIsRejected(cfg: BackpressureConfig) returns (s: State, i: nat)
    requires Usable(cfg) && Evicts(cfg)
    ensures SaturatedBy(cfg, s, i, AfterEmpty, s.capacity)
  {
    var s0 := Init(cfg);
    assert Path(s0, [], s0);
    var full := FillUp(s0, s0, s0.capacity);
    var middle := AtMiddleSelect(s0, full);
    i := |full.calls|;
    var drained := TakeAll(s0, middle);
    Extend(s0, drained, Producer(i));
    var retry := MiddleSelectNext(drained, i);
    var refilled := FillUp(s0, retry, retry.capacity);
    assert refilled.calls[i] == retry.calls[i] && refilled.mark[i] == retry.mark[i];
    s := RejectRetry(s0, refilled, i, AfterEmpty);
  }
}
