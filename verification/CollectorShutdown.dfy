/** Shutdown: the drain guarantee, its progress, and when a send meets the
    closed channel. */
module CollectorShutdown {
  import opened Config
  import opened CollectorModel
  import opened CollectorFates
  import opened CollectorCounts

  ghost predicate ShutInv(s: State) {
    && |s.workers| > 0
    && (s.closed <==> s.shutdown == Waiting || s.shutdown == Returned)
    && (forall w :: 0 <= w < |s.workers| && s.workers[w].Exited? ==> s.closed && s.queue == [])
    && (s.shutdown == Returned ==> AllExited(s))
  }

  lemma ShutWorker(s: State, w: nat, ok: bool)
    requires ShutInv(s) && Enabled(s, Worker(w, ok))
    ensures ShutInv(WorkerNext(s, w, ok))
  {
    var s' := WorkerNext(s, w, ok);
    WorkerOnly(s, w, ok);
    WorkerChannel(s, w, ok);
    forall v | 0 <= v < |s'.workers| && s'.workers[v].Exited? ensures s'.closed && s'.queue == [] {
      if v != w {
        assert s.workers[v].Exited?;
      }
    }
  }

  lemma ShutStep(s: State, step: Step)
    requires ShutInv(s) && Enabled(s, step)
    ensures ShutInv(Next(s, step))
  {
    match step {
      case Producer(i) => CallMoves(s, i);
      case Worker(w, ok) => ShutWorker(s, w, ok);
      case _ =>
    }
  }

  lemma {:induction false} PathShut(a: State, steps: seq<Step>, b: State)
    requires ShutInv(a) && Path(a, steps, b)
    ensures ShutInv(b)
    decreases |steps|
  {
    if steps != [] {
      ShutStep(a, steps[0]);
      PathShut(Next(a, steps[0]), steps[1..], b);
    }
  }

  lemma ReachableShut(cfg: BackpressureConfig, s: State)
    requires Reachable(cfg, s)
    ensures ShutInv(s)
  {
    var steps :| Path(Init(cfg), steps, s);
    PathShut(Init(cfg), steps, s);
  }

  // ---- the drain -------------------------------------------------------------

  /** When Shutdown has returned, by whichever branch: the channel is closed and
      empty, every worker has exited, no job is held, every job ever sent was
      evicted or finished, exactly once, and the worker counters are final. */
  lemma ShutdownDrains(cfg: BackpressureConfig, s: State)
    requires Reachable(cfg, s) && s.shutdown == Returned
    ensures s.closed && s.queue == [] && AllExited(s)
    ensures forall j: Job :: WasSent(s, j) ==>
                               multiset(Finishers(s.finished))[j] + multiset(Evicted(s))[j] == 1
    ensures |s.sent| == |s.finished| + |Evicted(s)|
    ensures s.counters.published == NumEnded(s, Published)
    ensures s.counters.parseError == NumEnded(s, ParseFailed)
    ensures s.counters.publishError == NumEnded(s, PublishFailed)
  {
    ReachableShut(cfg, s);
    ReachableInv(cfg, s);
    assert s.workers[0].Exited?;
    forall w | w in s.workers ensures w.Exited? {
      var i :| 0 <= i < |s.workers| && s.workers[i] == w;
    }
    ResolvedFree(s.workers);
    forall j: Job | WasSent(s, j) ensures multiset(Finishers(s.finished))[j] + multiset(Evicted(s))[j] == 1 {
      assert JobOk(s, j);
      assert Parsing(j) !in s.workers && Publishing(j) !in s.workers;
      assert InHand(s, j) == 0;
    }
  }

  // ---- progress --------------------------------------------------------------

  function Rank(pc: WorkerPc): nat {
    match pc
    case Exited => 0
    case Receiving => 1
    case Parsing(_) => 4
    case Publishing(_) => 3
    case _ => 2
  }

  function Ranks(ws: seq<WorkerPc>): nat {
    if ws == [] then 0 else Ranks(ws[..|ws| - 1]) + Rank(ws[|ws| - 1])
  }

  lemma {:induction false} RanksUpdate(ws: seq<WorkerPc>, w: nat, pc: WorkerPc)
    requires w < |ws|
    ensures Ranks(ws[w := pc]) == Ranks(ws) - Rank(ws[w]) + Rank(pc)
  {
    var n := |ws| - 1;
    if w == n {
      assert ws[w := pc][..n] == ws[..n];
    } else {
      assert ws[w := pc][..n] == ws[..n][w := pc];
      RanksUpdate(ws[..n], w, pc);
    }
  }

  /** Worker steps left once the channel is closed: at most five per queued job
      and what each worker still has to do. */
  function DrainMeasure(s: State): nat {
    5 * |s.queue| + Ranks(s.workers)
  }

  lemma WorkerDrains(s: State, w: nat, ok: bool)
    requires Enabled(s, Worker(w, ok))
    ensures DrainMeasure(WorkerNext(s, w, ok)) < DrainMeasure(s) && WorkerNext(s, w, ok).closed == s.closed
  {
    var s' := WorkerNext(s, w, ok);
    WorkerOnly(s, w, ok);
    RanksUpdate(s.workers, w, s'.workers[w]);
  }

  /** After the close, every worker step lowers the measure and no other step
      raises it. */
  lemma DrainProgress(s: State, step: Step)
    requires s.closed && Enabled(s, step)
    ensures Next(s, step).closed
    ensures step.Worker? ==> DrainMeasure(Next(s, step)) < DrainMeasure(s)
    ensures !step.Worker? ==> DrainMeasure(Next(s, step)) <= DrainMeasure(s)
  {
    match step {
      case Worker(w, ok) => WorkerDrains(s, w, ok);
      case Producer(i) => CallMoves(s, i);
      case _ =>
    }
  }

  function WorkerSteps(steps: seq<Step>): nat
    decreases |steps|
  {
    if steps == [] then 0 else (if steps[0].Worker? then 1 else 0) + WorkerSteps(steps[1..])
  }

  /** Whatever else happens after the close, the workers take a bounded number of
      steps. */
  lemma {:induction false} DrainBounded(a: State, steps: seq<Step>, b: State)
    requires a.closed && Path(a, steps, b)
    ensures b.closed && WorkerSteps(steps) + DrainMeasure(b) <= DrainMeasure(a)
    decreases |steps|
  {
    if steps != [] {
      DrainProgress(a, steps[0]);
      DrainBounded(Next(a, steps[0]), steps[1..], b);
    }
  }

  /** And no worker gets stuck: from any state with the channel closed the
      workers alone reach the point where Shutdown returns. */
  lemma {:induction false} DrainCompletes(s: State) returns (steps: seq<Step>, t: State)
    requires s.closed
    ensures Path(s, steps, t) && AllExited(t) && WorkerSteps(steps) == |steps|
    ensures s.shutdown == Waiting ==> Enabled(t, ShutdownReturn)
    ensures t.shutdown == s.shutdown
    decreases DrainMeasure(s)
  {
    if AllExited(s) {
      steps, t := [], s;
    } else {
      var w :| 0 <= w < |s.workers| && !s.workers[w].Exited?;
      var step := Worker(w, true);
      DrainProgress(s, step);
      var rest, t' := DrainCompletes(Next(s, step));
      steps, t := [step] + rest, t';
      assert steps[1..] == rest;
    }
  }

  // ---- sends on the closed channel -------------------------------------------

  /** Still on the way to a send. */
  predicate BeforeSend(pc: CallPc) {
    pc.FirstSend? || pc.MiddleSelect? || pc.CountEviction? || pc.CountClosedReceive? || pc.RetrySend?
  }

  ghost predicate NoBegin(steps: seq<Step>) {
    forall step :: step in steps ==> !step.Begin?
  }

  /** Some call that has not panicked yet may still do so. */
  ghost predicate CanPanic(s: State) {
    exists steps, t, i: nat ::
      Path(s, steps, t) && NoBegin(steps) && i < |s.calls| && i < |t.calls|
      && !s.calls[i].Panicked? && t.calls[i].Panicked?
  }

  lemma SettledStep(s: State, step: Step, i: nat)
    requires s.closed && Enabled(s, step) && !step.Begin? && i < |s.calls|
    requires !BeforeSend(s.calls[i]) && !s.calls[i].Panicked?
    ensures var s' := Next(s, step);
            |s'.calls| == |s.calls| && !BeforeSend(s'.calls[i]) && !s'.calls[i].Panicked? && s'.closed
  {
    match step {
      case Producer(k) => CallMoves(s, k);
      case Worker(w, ok) => WorkerOnly(s, w, ok);
      case _ =>
    }
  }

  lemma {:induction false} SettledStaysCalm(a: State, steps: seq<Step>, b: State, i: nat)
    requires a.closed && Path(a, steps, b) && NoBegin(steps) && i < |a.calls|
    requires !BeforeSend(a.calls[i]) && !a.calls[i].Panicked?
    ensures |b.calls| == |a.calls| && !b.calls[i].Panicked?
    decreases |steps|
  {
    if steps != [] {
      assert steps[0] in steps && forall step :: step in steps[1..] ==> step in steps;
      var a' := Next(a, steps[0]);
      SettledStep(a, steps[0], i);
      SettledStaysCalm(a', steps[1..], b, i);
    }
  }

  function Distance(pc: CallPc): nat {
    match pc
    case FirstSend => 1
    case RetrySend(_) => 1
    case CountEviction => 2
    case CountClosedReceive => 2
    case MiddleSelect => 3
    case _ => 0
  }

  /** Left to itself on a closed channel, a call before its send panics. */
  lemma {:induction false} RunsIntoClose(s: State, i: nat) returns (steps: seq<Step>, t: State)
    requires s.closed && Shape(s) && i < |s.calls| && BeforeSend(s.calls[i])
    ensures Path(s, steps, t) && NoBegin(steps) && i < |t.calls| && t.calls[i].Panicked?
    decreases Distance(s.calls[i])
  {
    var step := Producer(i);
    var s' := Next(s, step);
    if s'.calls[i].Panicked? {
      OneStep(s, step);
      steps, t := [step], s';
    } else {
      var rest, t' := RunsIntoClose(s', i);
      steps, t := [step] + rest, t';
      assert steps[1..] == rest;
    }
  }

  lemma PathOfThree(a: State, step: Step, b: State, c: State, d: State)
    requires Enabled(a, step) && b == Next(a, step) && Enabled(b, step) && c == Next(b, step)
    requires Enabled(c, step) && d == Next(c, step)
    ensures Path(a, [step, step, step], d)
  {
    OneStep(c, step);
    assert [step, step][1..] == [step] && [step, step, step][1..] == [step, step];
    assert Path(b, [step, step], d);
  }

  lemma CountsDrop(s: State, i: nat, route: Route) returns (t: State)
    requires s.closed && Shape(s) && i < |s.calls|
    requires s.calls[i] == (if route == AfterClosed then CountClosedReceive else CountEviction)
    requires route == AfterClosed || route == AfterEviction
    ensures var mid := Goto(s, i, RetrySend(route)).(counters := s.counters.(full := s.counters.full + 1));
            && Enabled(s, Producer(i)) && mid == Next(s, Producer(i))
            && Enabled(mid, Producer(i)) && t == Next(mid, Producer(i))
    ensures t.calls == s.calls[i := Panicked(route)] && t.queue == s.queue && t.sent == s.sent
    ensures t.counters == s.counters.(full := s.counters.full + 1)
  {
    var mid := Goto(s, i, RetrySend(route)).(counters := s.counters.(full := s.counters.full + 1));
    t := Next(mid, Producer(i));
    assert t.calls == s.calls[i := Panicked(route)];
  }

  /** What the middle select of a drop_oldest call costs on a closed channel: it
      receives the oldest job or, from an empty channel, nothing at all; either
      way a drop is counted before the retry panics. */
  lemma ClosedMiddleSelect(cfg: BackpressureConfig, s: State, i: nat) returns (t: State)
    requires Reachable(cfg, s) && s.closed && i < |s.calls| && s.calls[i].MiddleSelect?
    ensures Path(s, [Producer(i), Producer(i), Producer(i)], t)
    ensures t.calls == s.calls[i := Panicked(if s.queue == [] then AfterClosed else AfterEviction)]
    ensures t.counters == s.counters.(full := s.counters.full + 1)
    ensures t.queue == (if s.queue == [] then [] else s.queue[1..]) && t.sent == s.sent
  {
    ReachableInv(cfg, s);
    var s1 := Next(s, Producer(i));
    t := CountsDrop(s1, i, if s.queue == [] then AfterClosed else AfterEviction);
    PathOfThree(s, Producer(i), s1, Next(s1, Producer(i)), t);
  }

  /** Exactly when a send on the closed channel is still possible: some call
      begun earlier has not completed its send. */
  lemma PanicIff(cfg: BackpressureConfig, s: State)
    requires Reachable(cfg, s) && s.closed
    ensures CanPanic(s) <==> exists i :: 0 <= i < |s.calls| && BeforeSend(s.calls[i])
  {
    ReachableInv(cfg, s);
    if CanPanic(s) {
      var steps, t, i: nat :| Path(s, steps, t) && NoBegin(steps) && i < |s.calls| && i < |t.calls|
                              && !s.calls[i].Panicked? && t.calls[i].Panicked?;
      if !BeforeSend(s.calls[i]) {
        SettledStaysCalm(s, steps, t, i);
      }
    }
    if i: nat :| i < |s.calls| && BeforeSend(s.calls[i]) {
      var steps, t := RunsIntoClose(s, i);
    }
  }

  /** Such a state is reachable when Shutdown does not wait for the handlers. */
  lemma CloseUnderCall(cfg: BackpressureConfig) returns (s: State)
    requires Usable(cfg)
    ensures Reachable(cfg, s) && s.closed && CanPanic(s)
  {
    var s0 := Init(cfg);
    var steps := [Begin([1]), ShutdownStart, ShutdownTimeout, ShutdownClose];
    var s1 := Next(s0, Begin([1]));
    var s2 := Next(s1, ShutdownStart);
    var s3 := Next(s2, ShutdownTimeout);
    s := Next(s3, ShutdownClose);
    OneStep(s3, ShutdownClose);
    assert steps[3..] == [ShutdownClose] && steps[2..][1..] == steps[3..];
    assert steps[1..][1..] == steps[2..];
    assert Path(s2, steps[2..], s);
    assert Path(s1, steps[1..], s);
    assert Path(s0, steps, s);
    assert BeforeSend(s.calls[0]);
    PanicIff(cfg, s);
  }

  // ---- the order of the main program: handlers drained first -----------------

  /** Shutdown starts when every call has returned, and no call begins later. */
  ghost predicate HandlersDrained(a: State, steps: seq<Step>)
    decreases |steps|
  {
    steps == [] ||
    (Enabled(a, steps[0])
     && (steps[0].ShutdownStart? ==> AllDone(a))
     && (steps[0].Begin? ==> a.shutdown == Serving)
     && HandlersDrained(Next(a, steps[0]), steps[1..]))
  }

  ghost predicate CalmInv(s: State) {
    && (s.shutdown == Serving ==> !s.closed)
    && (s.shutdown != Serving ==> AllDone(s))
    && (forall i :: 0 <= i < |s.calls| ==> !s.calls[i].Panicked? && !s.calls[i].CountClosedReceive?
                                            && s.calls[i] != RetrySend(AfterClosed))
  }

  lemma {:induction false} CalmPath(a: State, steps: seq<Step>, b: State)
    requires CalmInv(a) && Path(a, steps, b) && HandlersDrained(a, steps)
    ensures CalmInv(b)
    decreases |steps|
  {
    if steps != [] {
      CalmStep(a, steps[0]);
      CalmPath(Next(a, steps[0]), steps[1..], b);
    }
  }

  lemma CalmProducer(s: State, i: nat)
    requires CalmInv(s) && Enabled(s, Producer(i))
    ensures CalmInv(ProducerNext(s, i))
  {
    assert !CallDone(s.calls[i]);
    assert s.shutdown == Serving && !s.closed;
    CallMoves(s, i);
    var s' := ProducerNext(s, i);
    assert !s'.calls[i].Panicked? && !s'.calls[i].CountClosedReceive? && s'.calls[i] != RetrySend(AfterClosed);
    assert forall k :: 0 <= k < |s.calls| && k != i ==> s'.calls[k] == s.calls[k];
  }

  lemma CalmStep(s: State, step: Step)
    requires CalmInv(s) && Enabled(s, step)
    requires step.ShutdownStart? ==> AllDone(s)
    requires step.Begin? ==> s.shutdown == Serving
    ensures CalmInv(Next(s, step))
  {
    var s' := Next(s, step);
    match step {
      case Producer(i) => CalmProducer(s, i);
      case Worker(_, _) => assert s'.calls == s.calls && s'.shutdown == s.shutdown && s'.closed == s.closed;
      case _ =>
    }
  }

  ghost predicate NoTimeout(steps: seq<Step>) {
    ShutdownTimeout !in steps
  }

  ghost predicate ClosesEmpty(s: State) {
    s.shutdown != Serving && s.shutdown != Polling ==> s.queue == []
  }

  /** Before the deadline only an empty channel makes Shutdown go on. */
  lemma TickSeesEmpty(s: State, step: Step)
    requires Enabled(s, step)
    ensures s.shutdown == Polling && Next(s, step).shutdown != Polling && !step.ShutdownTimeout? ==>
              step.ShutdownTick? && s.queue == [] && Next(s, step).shutdown == Closing
    ensures step.ShutdownTick? && s.queue == [] ==> Next(s, step).shutdown == Closing
    ensures step.ShutdownTick? && s.queue != [] ==> Next(s, step) == s
    ensures step.ShutdownTimeout? ==> Next(s, step).shutdown == Closing
  {
    match step {
      case Producer(i) => CallMoves(s, i);
      case Worker(w, ok) => WorkerOnly(s, w, ok);
      case _ =>
    }
  }

  lemma ClosesEmptyStep(s: State, step: Step)
    requires CalmInv(s) && ClosesEmpty(s) && Enabled(s, step) && !step.ShutdownTimeout?
    requires step.Begin? ==> s.shutdown == Serving
    ensures ClosesEmpty(Next(s, step))
  {
    match step {
      case Producer(i) => CallMoves(s, i);
      case Worker(w, ok) =>
        WorkerOnly(s, w, ok);
        WorkerChannel(s, w, ok);
      case _ =>
    }
  }

  lemma {:induction false} ClosesEmptyPath(a: State, steps: seq<Step>, b: State)
    requires CalmInv(a) && ClosesEmpty(a) && Path(a, steps, b) && HandlersDrained(a, steps) && NoTimeout(steps)
    ensures ClosesEmpty(b)
    decreases |steps|
  {
    if steps != [] {
      assert steps[0] in steps && forall step :: step in steps[1..] ==> step in steps;
      CalmStep(a, steps[0]);
      ClosesEmptyStep(a, steps[0]);
      ClosesEmptyPath(Next(a, steps[0]), steps[1..], b);
    }
  }

  /** With the handlers drained first, a Shutdown that does not time out closes a
      channel the workers have emptied. */
  lemma ClosedWhenEmpty(cfg: BackpressureConfig, steps: seq<Step>, s: State)
    requires Usable(cfg) && Path(Init(cfg), steps, s) && HandlersDrained(Init(cfg), steps) && NoTimeout(steps)
    ensures s.closed || s.shutdown == Closing ==> s.queue == []
  {
    ClosesEmptyPath(Init(cfg), steps, s);
    assert Reachable(cfg, s);
    ReachableShut(cfg, s);
  }

  /** With the handlers drained first, no send meets the closed channel, and when
      Shutdown returns the books are closed: every call was published or counted
      as a drop, and every accepted payload was published, evicted, or counted
      as a worker drop. */
  lemma DrainedShutdownClosesBooks(cfg: BackpressureConfig, steps: seq<Step>, s: State)
    requires Usable(cfg) && Path(Init(cfg), steps, s) && HandlersDrained(Init(cfg), steps)
    ensures forall i :: 0 <= i < |s.calls| ==> !s.calls[i].Panicked?
    ensures s.shutdown == Returned ==>
              && |s.calls| == s.counters.published + DropTotal(s.counters)
              && s.counters.ingested
                 == s.counters.published + |Evicted(s)| + s.counters.parseError + s.counters.publishError
  {
    CalmPath(Init(cfg), steps, s);
    assert Reachable(cfg, s);
    if s.shutdown == Returned {
      ShutdownDrains(cfg, s);
      BooksClose(cfg, s);
      forall pc | pc in s.calls ensures !IsPanicked(pc) && !CountedClosed(pc) {
        var i :| 0 <= i < |s.calls| && s.calls[i] == pc;
      }
      TallyNone(s.calls, IsPanicked);
      TallyNone(s.calls, CountedClosed);
    }
  }
}
