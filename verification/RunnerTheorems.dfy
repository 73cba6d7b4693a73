/** The delivery guarantees of the processor, for every reachable state. */
module RunnerTheorems {
  import opened Domain
  import opened Storage
  import opened RunnerCore
  import opened Processor
  import opened RunnerModel
  import opened RunnerSafety

  // ---- fetch pipeline --------------------------------------------------------

  /** What the loop consumed is a prefix of what was fetched, at most nine
      outcomes lie between, and no commit passes a message not yet consumed. */
  lemma PipelineSafety(env: Env, store: Store, s: State, p: nat)
    requires Reachable(env, store, s)
    ensures s.h.consumed + MessagesOf(Pipe(s)) <= s.h.fetched
    ensures s.fetching ==> s.h.consumed + MessagesOf(Pipe(s)) == s.h.fetched
    ensures |Pipe(s)| <= 9
    ensures p < |env.topic| ==>
              p < |s.core.watermark| && p < |s.h.start|
              && (s.core.watermark[p] <= s.h.start[p]
                  || exists m :: m in s.h.consumed && m.at == Pos(p, s.core.watermark[p] - 1))
  {
    ReachableInv(env, store, s);
    if p < |env.topic| && s.core.watermark[p] > s.h.start[p] {
      AfterCovers(s.h.start, s.h.consumed, Pos(p, s.core.watermark[p] - 1));
    }
  }

  /** The pipe holds as much: eight queued outcomes and one in hand. */
  lemma {:induction false} FillPipe(env: Env, store: Store, n: nat) returns (s: State)
    requires n <= OUTCOMES_CAP
    ensures Reachable(env, store, s) && s.fetching && s.running && s.held == None && |s.outcomes| == n
  {
    if n == 0 {
      s := Init(env, store);
      assert Path(env, s, [], s);
    } else {
      var before := FillPipe(env, store, n - 1);
      Extend(env, Init(env, store), before, FetchError);
      var held := Next(env, before, FetchError);
      Extend(env, Init(env, store), held, PushOutcome);
      s := Next(env, held, PushOutcome);
    }
  }

  lemma PipeHoldsNine(env: Env, store: Store) returns (s: State)
    ensures Reachable(env, store, s) && |Pipe(s)| == 9
  {
    var full := FillPipe(env, store, 8);
    Extend(env, Init(env, store), full, FetchError);
    s := Next(env, full, FetchError);
  }

  /** Each partition is consumed without gaps, duplicates or reordering. */
  lemma ConsumedInOrder(env: Env, store: Store, s: State, at: Pos)
    requires Reachable(env, store, s)
    ensures InOrder(s.h.start, s.h.consumed)
    ensures (exists m :: m in s.h.consumed && m.at == at)
            <==> at.part < |s.h.start| && at.part < |s.h.pos|
                 && s.h.start[at.part] <= at.off < s.h.pos[at.part]
  {
    ReachableInv(env, store, s);
    AfterCovers(s.h.start, s.h.consumed, at);
  }

  // ---- at-least-once ---------------------------------------------------------

  /** In every reachable state, a decodable message below the committed offset,
      with nothing undecodable between the two, was part of a write that returned
      nil: across failures, crashes and restarts. */
  lemma AtLeastOnce(env: Env, store: Store, s: State, at: Pos)
    requires Reachable(env, store, s)
    requires at.part < |s.core.watermark| && at.off < s.core.watermark[at.part]
    requires forall off :: at.off <= off < s.core.watermark[at.part] ==> !Undecodable(env, Pos(at.part, off))
    ensures InTopic(env, at) && at in s.h.accepted
  {
    ReachableInv(env, store, s);
    forall q: Pos | q.part == at.part && at.off <= q.off < s.core.watermark[at.part] ensures !Undecodable(env, q) {
      assert q == Pos(at.part, q.off);
    }
    assert at in s.h.orphans ==> Orphaned(env, s.h.start, s.h.accepted, at);
  }

  /** Decodable, below the watermark, and in no write that returned nil. */
  ghost predicate AtRisk(env: Env, s: State, at: Pos) {
    Decodable(env, at) && at.part < |s.core.watermark| && at.off < s.core.watermark[at.part]
    && at !in s.h.accepted
  }

  /** With undecodable messages: exactly what was lost with an earlier process,
      and what is buffered, not accepted, and followed in its own partition by an
      undecodable message committed since the last successful flush. Either way
      an undecodable message lies between it and the committed offset. */
  lemma RiskSet(env: Env, store: Store, s: State, at: Pos)
    requires Reachable(env, store, s)
    ensures AtRisk(env, s, at) <==>
              at in s.h.orphans
              || (at in Positions(s.core.buf) && at !in s.h.accepted && Behind(s.h.poisoned, at))
    ensures AtRisk(env, s, at) ==> Passed(env, at, s.core.watermark[at.part])
  {
    ReachableInv(env, store, s);
    if at in s.h.orphans {
      assert Orphaned(env, s.h.start, s.h.accepted, at);
      PassedFurther(env, at, s.h.start[at.part], s.core.watermark[at.part]);
    } else if AtRisk(env, s, at) {
      var q :| q in s.h.poisoned && q.part == at.part && q.off > at.off;
      assert Undecodable(env, q);
    }
  }

  /** The end of a process turns the risk of everything buffered into a loss: the
      next one starts with exactly the old losses and what was at risk. */
  lemma RestartLosesRisk(env: Env, store: Store, s: State, at: Pos)
    requires Reachable(env, store, s) && Enabled(env, s, Restart)
    ensures at in Next(env, s, Restart).h.orphans <==> AtRisk(env, s, at)
  {
    RiskSet(env, store, s, at);
    ReachableInv(env, store, s);
    assert at in Abandoned(s) ==> at in Positions(s.core.buf) && AtRisk(env, s, at);
  }

  lemma ReachableNext(env: Env, store: Store, s: State, step: Step)
    requires Reachable(env, store, s) && Enabled(env, s, step)
    ensures Reachable(env, store, Next(env, s, step))
  {
    Extend(env, Init(env, store), s, step);
  }

  predicate FlushSucceeds(f: Flushing) {
    FlushVerdict(f.core, f.io) in {NothingToFlush, Flushed}
  }

  lemma FlushedEmpties(env: Env, s: State, step: Step)
    requires Enabled(env, s, step) && FlushIn(env, s, step).Some? && FlushSucceeds(FlushIn(env, s, step).value)
    ensures Next(env, s, step).core.buf == [] && Next(env, s, step).h.orphans == s.h.orphans
  {
    var f := FlushIn(env, s, step).value;
    assert Flush(f.core, f.io).buf == [];
  }

  /** A successful flush, whatever made it happen, ends the risk of everything
      buffered: at risk remains exactly what earlier processes lost. */
  lemma FlushEndsRisk(env: Env, store: Store, s: State, step: Step, at: Pos)
    requires Reachable(env, store, s) && Enabled(env, s, step)
    requires FlushIn(env, s, step).Some? && FlushSucceeds(FlushIn(env, s, step).value)
    ensures AtRisk(env, Next(env, s, step), at) <==> at in s.h.orphans
  {
    ReachableNext(env, store, s, step);
    FlushedEmpties(env, s, step);
    RiskSet(env, store, Next(env, s, step), at);
  }

  // ---- what one turn does ----------------------------------------------------

  /** A tick, the end and a failed fetch after the cancellation flush. */
  predicate Flushes(s: State, step: Step) {
    step.TickFlush? || step.FinalFlush?
    || (step.TakeOutcome? && s.outcomes != [] && s.outcomes[0].FetchFailed? && s.cancelled)
  }

  /** The turns that flush and nothing else, and the failed fetch that does
      nothing. The loop ends at the cancellation. */
  lemma FlushTurn(env: Env, s: State, step: Step)
    requires Enabled(env, s, step)
    ensures Flushes(s, step) ==>
              Next(env, s, step).core == Flush(s.core, step.io)
              && FlushIn(env, s, step) == Some(Flushing(s.core, step.io))
    ensures Flushes(s, step) ==> Next(env, s, step).running == (step.TickFlush? && s.running)
    ensures step.TakeOutcome? && s.outcomes[0].FetchFailed? && !s.cancelled ==>
              Next(env, s, step).core == s.core && Next(env, s, step).running == s.running
              && FlushIn(env, s, step) == None
  {
  }

  /** The turn of an undecodable message: its own commit and nothing else; the
      loop ends if that fails. */
  lemma UndecodableTurn(env: Env, s: State, io: Io, m: Message)
    requires Enabled(env, s, TakeOutcome(io)) && s.outcomes[0] == Fetched(m) && env.decode(m.value).None?
    ensures var s' := Next(env, s, TakeOutcome(io));
            && s'.core.buf == s.core.buf && s'.core.store == s.core.store && s'.running == io.commit.Committed?
            && s'.core.watermark == Commit(s.core.watermark, [m], io.commit)
            && FlushIn(env, s, TakeOutcome(io)) == None
            && forall p :: 0 <= p < |s.core.watermark| ==>
                             s'.core.watermark[p]
                             == if p == m.at.part && Applies(io.commit, p) then m.at.off + 1 else s.core.watermark[p]
  {
    forall p | 0 <= p < |s.core.watermark|
      ensures Commit(s.core.watermark, [m], io.commit)[p]
           == if p == m.at.part && Applies(io.commit, p) then m.at.off + 1 else s.core.watermark[p]
    {
      CommitOne(s.core.watermark, m, io.commit, p);
    }
  }

  /** The turn of a decodable message: it joins the buffer, and nothing is written
      or committed before the buffer holds BatchMax items; then it is flushed. */
  lemma DecodableTurn(env: Env, s: State, io: Io, m: Message, e: LogEvent)
    requires Enabled(env, s, TakeOutcome(io)) && s.outcomes[0] == Fetched(m) && env.decode(m.value) == Some(e)
    ensures var s' := Next(env, s, TakeOutcome(io));
            var appended := s.core.(buf := s.core.buf + [Item(m, Process(e))]);
            && s'.running == s.running
            && (|s.core.buf| + 1 < env.batchMax ==>
                  s'.core == appended && FlushIn(env, s, TakeOutcome(io)) == None)
            && (|s.core.buf| + 1 >= env.batchMax ==>
                  s'.core == Flush(appended, io)
                  && FlushIn(env, s, TakeOutcome(io)) == Some(Flushing(appended, io)))
  {
  }

  // ---- batching --------------------------------------------------------------

  /** Not a tick and not the cancellation; and a full batch, if there is one, is
      written in part at least and committed. */
  ghost predicate FullBatchesOnly(env: Env, steps: seq<Step>) {
    forall step :: step in steps ==>
                     && !step.TickFlush? && !step.Cancel?
                     && (step.TakeOutcome? ==>
                           step.io.commit.Committed?
                           && exists j :: 0 <= j < env.batchMax && OutcomeAt(step.io.outs, j).Stored?)
  }

  ghost predicate AllFull(env: Env, s: State) {
    !s.cancelled && |s.core.buf| < env.batchMax && forall b :: b in s.h.batches ==> |b.items| == env.batchMax
  }

  lemma FullBatchFlushed(env: Env, s: State, io: Io)
    requires |s.core.buf| == env.batchMax && io.commit.Committed?
    requires exists j :: 0 <= j < env.batchMax && OutcomeAt(io.outs, j).Stored?
    ensures DoFlush(s, io).core.buf == [] && DoFlush(s, io).h.batches == s.h.batches + [Batch(s.core.buf, io.outs)]
  {
    var j :| 0 <= j < env.batchMax && OutcomeAt(io.outs, j).Stored?;
    assert !WriteFails(|s.core.buf|, io.outs);
  }

  lemma AllFullStep(env: Env, s: State, step: Step)
    requires AllFull(env, s) && Enabled(env, s, step) && FullBatchesOnly(env, [step])
    ensures AllFull(env, Next(env, s, step))
  {
    assert step in [step];
    if step.TakeOutcome? && s.outcomes[0].Fetched? && env.decode(s.outcomes[0].msg.value).Some? {
      var popped := s.(outcomes := s.outcomes[1..]);
      var m := s.outcomes[0].msg;
      var appended := DoAppend(popped, m, env.decode(m.value).value);
      if |appended.core.buf| >= env.batchMax {
        FullBatchFlushed(env, appended, step.io);
      }
    }
  }

  lemma {:induction false} AllFullPath(env: Env, a: State, steps: seq<Step>, b: State)
    requires AllFull(env, a) && Path(env, a, steps, b) && FullBatchesOnly(env, steps)
    ensures AllFull(env, b)
    decreases |steps|
  {
    if steps != [] {
      assert steps[0] in steps && forall step :: step in steps[1..] ==> step in steps;
      AllFullStep(env, a, steps[0]);
      AllFullPath(env, Next(env, a, steps[0]), steps[1..], b);
    }
  }

  lemma {:induction false} DeliveredLength(batches: seq<Batch>, n: nat)
    requires forall b :: b in batches ==> |b.items| == n
    ensures |Delivered(batches)| == |batches| * n
  {
    if batches != [] {
      var k := |batches| - 1;
      assert batches[k] in batches;
      DeliveredLength(batches[..k], n);
      assert |batches| * n == k * n + n;
    }
  }

  /** The decodable ones of the messages. */
  function DecodableIn(env: Env, msgs: seq<Message>): (r: set<nat>)
    ensures forall i: nat :: i in r <==> i < |msgs| && env.decode(msgs[i].value).Some?
  {
    set i: nat | i < |msgs| && env.decode(msgs[i].value).Some?
  }

  lemma {:induction false} ItemsCount(env: Env, msgs: seq<Message>)
    ensures |ItemsOf(env, msgs)| == |DecodableIn(env, msgs)|
  {
    if msgs == [] {
      assert DecodableIn(env, msgs) == {};
    } else {
      var n := |msgs| - 1;
      ItemsCount(env, msgs[..n]);
      assert DecodableIn(env, msgs)
          == DecodableIn(env, msgs[..n]) + if env.decode(msgs[n].value).Some? then {n} else {};
    }
  }

  /** While nothing but full buffers is flushed, and with success, every batch has
      exactly BatchMax items, and there are as many batches as the decodable
      messages consumed make up. */
  lemma BatchesAreFull(env: Env, store: Store, steps: seq<Step>, s: State)
    requires env.batchMax > 0 && Path(env, Init(env, store), steps, s) && FullBatchesOnly(env, steps)
    ensures forall b :: b in s.h.batches ==> |b.items| == env.batchMax
    ensures |DecodableIn(env, s.h.consumed)| == |s.h.batches| * env.batchMax + |s.core.buf|
    ensures |s.core.buf| < env.batchMax
  {
    AllFullPath(env, Init(env, store), steps, s);
    assert Reachable(env, store, s);
    BatchingIsTransparent(env, store, s);
    DeliveredLength(s.h.batches, env.batchMax);
    ItemsCount(env, s.h.consumed);
  }

  /** Batching refines one-at-a-time processing. */
  lemma BatchingIsTransparent(env: Env, store: Store, s: State)
    requires Reachable(env, store, s)
    ensures Delivered(s.h.batches) + s.core.buf == ItemsOf(env, s.h.consumed)
  {
    ReachableInv(env, store, s);
  }

  /** Only failed flushes let the buffer grow to BatchMax and beyond. */
  lemma BufferBound(env: Env, store: Store, s: State)
    requires Reachable(env, store, s) && env.batchMax > 0
    ensures |s.core.buf| <= env.batchMax - 1 + s.h.failures
    ensures s.h.failures == 0 ==> |s.core.buf| < env.batchMax
  {
    ReachableInv(env, store, s);
  }

  /** The step flushes a buffer that had reached BatchMax, without success. */
  predicate FullFlushFails(env: Env, s: State, step: Step)
    requires Enabled(env, s, step)
  {
    match FlushIn(env, s, step)
    case None => false
    case Some(f) => |f.core.buf| >= env.batchMax && FlushVerdict(f.core, f.io) != Flushed
  }

  ghost predicate SomeFullFlushFails(env: Env, a: State, steps: seq<Step>)
    decreases |steps|
  {
    steps != [] && Enabled(env, a, steps[0])
    && (FullFlushFails(env, a, steps[0]) || SomeFullFlushFails(env, Next(env, a, steps[0]), steps[1..]))
  }

  /** Somewhere along the run the buffer holds BatchMax items or more. */
  ghost predicate SomewhereFull(env: Env, a: State, steps: seq<Step>)
    decreases |steps|
  {
    |a.core.buf| >= env.batchMax
    || (steps != [] && Enabled(env, a, steps[0]) && SomewhereFull(env, Next(env, a, steps[0]), steps[1..]))
  }

  lemma FullAfterFlush(s: State, io: Io)
    ensures |DoFlush(s, io).core.buf| == if FlushVerdict(s.core, io) == Flushed then 0 else |s.core.buf|
  {
  }

  lemma FullAfterFailure(env: Env, s: State, step: Step)
    requires Enabled(env, s, step) && |s.core.buf| < env.batchMax
    ensures |Next(env, s, step).core.buf| >= env.batchMax <==> FullFlushFails(env, s, step)
  {
    match step {
      case TickFlush(io) => FullAfterFlush(s, io);
      case FinalFlush(io) => FullAfterFlush(s, io);
      case TakeOutcome(io) =>
        var popped := s.(outcomes := s.outcomes[1..]);
        match s.outcomes[0] {
          case FetchFailed => FullAfterFlush(popped, io);
          case Fetched(m) =>
            match env.decode(m.value)
            case None =>
            case Some(e) => FullAfterFlush(DoAppend(popped, m, e), io);
        }
      case _ =>
    }
  }

  lemma {:induction false} BoundAlongRun(env: Env, a: State, steps: seq<Step>, b: State)
    requires Path(env, a, steps, b) && |a.core.buf| < env.batchMax
    ensures SomewhereFull(env, a, steps) <==> SomeFullFlushFails(env, a, steps)
    decreases |steps|
  {
    if steps != [] {
      var a' := Next(env, a, steps[0]);
      FullAfterFailure(env, a, steps[0]);
      if |a'.core.buf| < env.batchMax {
        BoundAlongRun(env, a', steps[1..], b);
      }
    }
  }

  /** Exactly when a run leaves the bound: the buffer reaches BatchMax at some
      loop head if and only if some flush of a buffer that had reached it failed.
      Failing flushes of smaller buffers do no harm. */
  lemma BufferBoundIff(env: Env, store: Store, steps: seq<Step>, s: State)
    requires Path(env, Init(env, store), steps, s) && env.batchMax > 0
    ensures SomewhereFull(env, Init(env, store), steps) <==> SomeFullFlushFails(env, Init(env, store), steps)
  {
    BoundAlongRun(env, Init(env, store), steps, s);
  }

  /** A delivered message never reached the database only if its own point
      failed in the committing attempt and another point of it was stored. */
  lemma LossNeedsPartialWrite(env: Env, store: Store, s: State, b: Batch, i: nat)
    requires Reachable(env, store, s)
    requires b in s.h.batches && i < |b.items| && b.items[i].msg.at !in s.h.landed
    ensures OutcomeAt(b.outs, i).Failed?
    ensures exists j :: 0 <= j < |b.items| && j != i && OutcomeAt(b.outs, j).Stored?
  {
    ReachableInv(env, store, s);
  }

  // ---- runs built by hand ----------------------------------------------------

  lemma {:induction false} PathConcat(env: Env, a: State, xs: seq<Step>, b: State, ys: seq<Step>, c: State)
    requires Path(env, a, xs, b) && Path(env, b, ys, c)
    ensures Path(env, a, xs + ys, c)
    decreases |xs|
  {
    if xs == [] {
      assert xs + ys == ys;
    } else {
      PathConcat(env, Next(env, a, xs[0]), xs[1..], b, ys, c);
      assert (xs + ys)[1..] == xs[1..] + ys;
    }
  }

  lemma Extend(env: Env, a: State, s: State, step: Step)
    requires Joined(env, a, s) && Enabled(env, s, step)
    ensures Joined(env, a, Next(env, s, step))
  {
    var xs :| Path(env, a, xs, s);
    var s' := Next(env, s, step);
    assert [step][1..] == [] && Path(env, s', [], s');
    assert Path(env, s, [step], s');
    PathConcat(env, a, xs, s, [step], s');
  }

  ghost predicate Joined(env: Env, a: State, b: State) {
    exists steps :: Path(env, a, steps, b)
  }

  ghost predicate Waiting(s: State) {
    s.fetching && s.running && s.held.None? && s.outcomes == []
  }

  function NextMessage(env: Env, s: State, p: nat): Message
    requires p < |s.next| && p < |env.topic| && s.next[p] < |env.topic[p]|
  {
    Message(Pos(p, s.next[p]), env.topic[p][s.next[p]])
  }

  function AfterFetch(s: State, m: Message): State {
    s.(next := Bump(s.next, m), h := s.h.(fetched := s.h.fetched + [m]))
  }

  /** One message fetched, handed over and taken by an idle processor. */
  lemma Round(env: Env, a: State, s: State, p: nat, io: Io)
    requires Joined(env, a, s) && Waiting(s)
    requires p < |s.next| && p < |env.topic| && s.next[p] < |env.topic[p]|
    ensures var m := NextMessage(env, s, p);
            Joined(env, a, DoMessage(env, AfterFetch(s, m), m, io))
  {
    var m := NextMessage(env, s, p);
    Extend(env, a, s, FetchMessage(p));
    var s1 := Next(env, s, FetchMessage(p));
    Extend(env, a, s1, PushOutcome);
    var s2 := Next(env, s1, PushOutcome);
    Extend(env, a, s2, TakeOutcome(io));
    assert s2.outcomes == [Fetched(m)] && s2.(outcomes := s2.outcomes[1..]) == AfterFetch(s, m);
  }

  function OneEvent(): LogEvent {
    LogEvent(0, "s", "t", "a", 1.0, 200, map[])
  }

  function GoodThenBad(): Env {
    Env([[[0], [1]]], (v: Bytes) => if v == [0] then Some(OneEvent()) else None, 2)
  }

  /** Why at-least-once needs its hypothesis: a good message, then a bad one,
      then a crash. The good message is below the watermark, never accepted,
      and the restarted process will not read it again. */
  lemma CommitPastBuffer() returns (s: State)
    ensures Reachable(GoodThenBad(), map[], s)
    ensures AtRisk(GoodThenBad(), s, Pos(0, 0)) && s.core.buf == [] && s.running && s.next == [2]
  {
    var env := GoodThenBad();
    var io := Io([], Committed);
    var good, bad := Message(Pos(0, 0), [0]), Message(Pos(0, 1), [1]);
    var s0 := Init(env, map[]);
    assert Path(env, s0, [], s0);
    Round(env, s0, s0, 0, io);
    var s1 := DoMessage(env, AfterFetch(s0, good), good, io);
    assert s1 == DoAppend(AfterFetch(s0, good), good, OneEvent());
    assert s1.next == [1];
    Round(env, s0, s1, 0, io);
    var s2 := DoPoison(AfterFetch(s1, bad), bad, io);
    assert bad in [bad];
    assert Top([bad], 0) == 2;
    assert s2.core.watermark == [2];
    Extend(env, s0, s2, Crash(0, []));
    var s3 := Next(env, s2, Crash(0, []));
    Extend(env, s0, s3, Restart);
    s := Next(env, s3, Restart);
  }

  function Busy(n: nat): Env {
    Env([seq(n, _ => [])], _ => Some(OneEvent()), 1)
  }

  const NO_COMMIT := Io([], CommitFailed({}))

  /** BatchMax does not bound the buffer: with BatchMax 1 and commits that keep
      failing, it holds any number of messages. */
  lemma {:induction false} BufferUnbounded(n: nat, k: nat) returns (s: State)
    requires k <= n
    ensures Reachable(Busy(n), map[], s)
    ensures |s.core.buf| == k && s.h.failures == k
    ensures Waiting(s) && s.next == [k]
  {
    var env := Busy(n);
    var s0 := Init(env, map[]);
    if k == 0 {
      s := s0;
      assert Path(env, s, [], s);
    } else {
      var before := BufferUnbounded(n, k - 1);
      Round(env, s0, before, 0, NO_COMMIT);
      var m := NextMessage(env, before, 0);
      var full := DoAppend(AfterFetch(before, m), m, OneEvent());
      assert OutcomeAt([], 0).Stored?;
      assert FlushVerdict(full.core, NO_COMMIT) == CommitError;
      s := DoFlush(full, NO_COMMIT);
      assert s == DoMessage(env, AfterFetch(before, m), m, NO_COMMIT);
    }
  }
}
