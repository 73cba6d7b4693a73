/** What every run of the processor keeps: fetch order, which messages may be
    below the watermark, batching, buffer growth. Runs may interleave the fetch
    goroutine, fail anywhere, crash and restart. */
module RunnerSafety {
  import opened Domain
  import opened Storage
  import opened Processor
  import opened RunnerCore
  import opened RunnerModel

  // ---- the invariant ---------------------------------------------------------

  ghost predicate PipeInv(env: Env, s: State) {
    && |s.core.watermark| == |s.next| == |s.h.pos| == |s.h.start| == |env.topic|
    && |s.outcomes| <= OUTCOMES_CAP
    && (!s.fetching ==> s.held.None?)
    && (forall m :: m in MessagesOf(Pipe(s)) ==> Genuine(env, m))
    && (forall m :: m in s.h.consumed ==> Genuine(env, m))
    && InOrder(s.h.pos, MessagesOf(Pipe(s)))
    && (s.fetching ==> After(s.h.pos, MessagesOf(Pipe(s))) == s.next)
    && InOrder(s.h.start, s.h.consumed)
    && After(s.h.start, s.h.consumed) == s.h.pos
    && s.h.consumed + MessagesOf(Pipe(s)) <= s.h.fetched
    && (s.fetching ==> s.h.consumed + MessagesOf(Pipe(s)) == s.h.fetched)
  }

  /** Every watermark stays at or behind the main loop. */
  ghost predicate WatermarkInv(env: Env, s: State) {
    && |s.core.watermark| == |s.h.pos| == |env.topic|
    && (forall p :: 0 <= p < |s.h.pos| ==> s.core.watermark[p] <= s.h.pos[p] <= |env.topic[p]|)
    && (forall it :: it in s.core.buf ==>
                       && it.msg.at.part < |s.h.pos| && it.msg.at.off < s.h.pos[it.msg.at.part]
                       && Genuine(env, it.msg) && env.decode(it.msg.value).Some?
                       && it.point == Process(env.decode(it.msg.value).value))
  }

  /** A committed undecodable message of the same partition lies beyond `at`. */
  ghost predicate Behind(poisoned: set<Pos>, at: Pos) {
    exists q :: q in poisoned && q.part == at.part && q.off > at.off
  }

  /** An undecodable message lies in the same partition between `at` and w. */
  ghost predicate Passed(env: Env, at: Pos, w: nat) {
    exists q :: Undecodable(env, q) && q.part == at.part && at.off < q.off < w
  }

  ghost predicate Orphaned(env: Env, start: seq<nat>, accepted: set<Pos>, at: Pos) {
    && Decodable(env, at) && at !in accepted
    && at.part < |start| && at.off < start[at.part] && Passed(env, at, start[at.part])
  }

  /** A process works from the offsets it started from. */
  ghost predicate FromStart(watermark: seq<nat>, start: seq<nat>, buf: seq<Item>) {
    && |watermark| == |start|
    && (forall p :: 0 <= p < |start| ==> start[p] <= watermark[p])
    && (forall it :: it in buf && it.msg.at.part < |start| ==> start[it.msg.at.part] <= it.msg.at.off)
  }

  /** What overtook a buffered message is itself below the watermark. */
  ghost predicate OvertakersBelow(watermark: seq<nat>, buf: seq<Item>, accepted: set<Pos>, poisoned: set<Pos>) {
    forall it, q :: it in buf && it.msg.at !in accepted && q in poisoned
                    && q.part == it.msg.at.part && q.part < |watermark| && q.off > it.msg.at.off ==>
                      q.off < watermark[q.part]
  }

  /** What earlier processes lost lies below the start, with an undecodable
      message in between. */
  ghost predicate StartInv(env: Env, s: State) {
    && FromStart(s.core.watermark, s.h.start, s.core.buf)
    && OvertakersBelow(s.core.watermark, s.core.buf, s.h.accepted, s.h.poisoned)
    && (forall at :: at in s.h.orphans ==> Orphaned(env, s.h.start, s.h.accepted, at))
  }

  ghost predicate CoverInv(env: Env, s: State) {
    && |s.core.watermark| == |s.h.pos|
    && (forall at: Pos :: at.part < |s.h.pos| && at.off < s.h.pos[at.part] && Decodable(env, at) ==>
                            at in s.h.accepted || at in s.h.orphans || at in Positions(s.core.buf))
    && (forall it :: it in s.core.buf && it.msg.at !in s.h.accepted && it.msg.at.part < |s.h.pos| ==>
                       (it.msg.at.off < s.core.watermark[it.msg.at.part] <==> Behind(s.h.poisoned, it.msg.at)))
    && (forall q :: q in s.h.poisoned ==>
                      Undecodable(env, q) && q.part < |s.h.pos| && q.off < s.h.pos[q.part])
  }

  function ItemsOf(env: Env, msgs: seq<Message>): seq<Item> {
    if msgs == [] then []
    else
      var n := |msgs| - 1;
      ItemsOf(env, msgs[..n])
      + match env.decode(msgs[n].value)
        case None => []
        case Some(e) => [Item(msgs[n], Process(e))]
  }

  function Delivered(batches: seq<Batch>): seq<Item> {
    if batches == [] then [] else Delivered(batches[..|batches| - 1]) + batches[|batches| - 1].items
  }

  ghost predicate BatchInv(env: Env, s: State) {
    Delivered(s.h.batches) + s.core.buf == ItemsOf(env, s.h.consumed)
  }

  ghost predicate GrowthInv(env: Env, s: State) {
    env.batchMax > 0 ==> |s.core.buf| <= env.batchMax - 1 + s.h.failures
  }

  ghost predicate LossInv(s: State) {
    forall b, i :: b in s.h.batches && 0 <= i < |b.items| && b.items[i].msg.at !in s.h.landed ==>
                     OutcomeAt(b.outs, i).Failed? && !WriteFails(|b.items|, b.outs)
  }

  ghost predicate LoopInv(env: Env, s: State) {
    WatermarkInv(env, s) && CoverInv(env, s) && StartInv(env, s) && BatchInv(env, s) && GrowthInv(env, s) && LossInv(s)
  }

  ghost predicate Inv(env: Env, s: State) {
    PipeInv(env, s) && LoopInv(env, s)
  }

  // ---- pipeline steps --------------------------------------------------------

  lemma FetchKeepsPipe(env: Env, s: State, p: nat)
    requires PipeInv(env, s) && Enabled(env, s, FetchMessage(p))
    ensures PipeInv(env, Next(env, s, FetchMessage(p)))
  {
    var s' := Next(env, s, FetchMessage(p));
    var m := s'.held.value.msg;
    assert Pipe(s) == s.outcomes;
    assert Pipe(s') == Pipe(s) + [Fetched(m)];
    MessagesOfConcat(Pipe(s), [Fetched(m)]);
    assert MessagesOf([Fetched(m)]) == [m];
    InOrderConcat(s.h.pos, MessagesOf(Pipe(s)), [m]);
    assert s'.h.consumed + MessagesOf(Pipe(s')) == (s.h.consumed + MessagesOf(Pipe(s))) + [m];
  }

  lemma ErrorKeepsPipe(env: Env, s: State)
    requires PipeInv(env, s) && Enabled(env, s, FetchError)
    ensures PipeInv(env, Next(env, s, FetchError))
  {
    var s' := Next(env, s, FetchError);
    assert Pipe(s') == Pipe(s) + [FetchFailed];
    MessagesOfConcat(Pipe(s), [FetchFailed]);
    assert MessagesOf([FetchFailed]) == [];
    assert MessagesOf(Pipe(s')) == MessagesOf(Pipe(s));
  }

  /** The outcome in the fetcher's hand is lost when the fetcher stops. */
  lemma StopKeepsPipe(env: Env, s: State)
    requires PipeInv(env, s) && Enabled(env, s, StopFetcher)
    ensures PipeInv(env, Next(env, s, StopFetcher))
  {
    var s' := Next(env, s, StopFetcher);
    var tail := if s.held.Some? then [s.held.value] else [];
    MessagesOfConcat(s.outcomes, tail);
    assert Pipe(s') == s.outcomes && Pipe(s) == Pipe(s') + tail;
    InOrderConcat(s.h.pos, MessagesOf(Pipe(s')), MessagesOf(tail));
    assert MessagesOf(Pipe(s)) == MessagesOf(Pipe(s')) + MessagesOf(tail);
    assert s.h.consumed + MessagesOf(Pipe(s)) == s.h.consumed + MessagesOf(Pipe(s')) + MessagesOf(tail);
  }

  lemma PushKeepsPipe(env: Env, s: State, step: Step)
    requires PipeInv(env, s) && Enabled(env, s, step) && (step.PushOutcome? || step.Cancel?)
    ensures PipeInv(env, Next(env, s, step))
  {
    assert Pipe(Next(env, s, step)) == Pipe(s);
  }

  /** Two states with the same pipeline. */
  ghost predicate SamePipe(s: State, s': State) {
    && |s'.core.watermark| == |s.core.watermark|
    && s'.next == s.next && s'.held == s.held && s'.fetching == s.fetching
    && s'.h.start == s.h.start && s'.h.fetched == s.h.fetched
  }

  lemma FlushFrame(s: State, io: Io)
    ensures SamePipe(s, DoFlush(s, io)) && DoFlush(s, io).outcomes == s.outcomes
    ensures DoFlush(s, io).h.pos == s.h.pos && DoFlush(s, io).h.consumed == s.h.consumed
    ensures DoFlush(s, io).h.base == s.h.base && DoFlush(s, io).h.orphans == s.h.orphans
  {
  }

  lemma MessageFrame(env: Env, s: State, m: Message, io: Io)
    ensures SamePipe(s, DoMessage(env, s, m, io)) && DoMessage(env, s, m, io).outcomes == s.outcomes
    ensures DoMessage(env, s, m, io).h.pos == Bump(s.h.pos, m)
    ensures DoMessage(env, s, m, io).h.consumed == s.h.consumed + [m]
  {
    match env.decode(m.value)
    case None =>
    case Some(e) => FlushFrame(DoAppend(s, m, e), io);
  }

  lemma PipeUntouched(env: Env, s: State, s': State)
    requires PipeInv(env, s) && SamePipe(s, s')
    requires s'.outcomes == s.outcomes && s'.h.pos == s.h.pos && s'.h.consumed == s.h.consumed
    ensures PipeInv(env, s')
  {
    assert Pipe(s') == Pipe(s);
  }

  /** Popping the front outcome takes its message, if any, off the pipe. */
  lemma PipePopped(s: State, s': State)
    requires SamePipe(s, s') && s.outcomes != [] && s'.outcomes == s.outcomes[1..]
    ensures MessagesOf(Pipe(s)) ==
            (if s.outcomes[0].Fetched? then [s.outcomes[0].msg] else []) + MessagesOf(Pipe(s'))
  {
    assert Pipe(s) == [s.outcomes[0]] + Pipe(s');
  }

  /** Consuming the front message advances the position along the pipe. */
  lemma OrderAdvanced(pos: seq<nat>, start: seq<nat>, consumed: seq<Message>, m: Message, rest: seq<Message>)
    requires InOrder(pos, [m] + rest) && InOrder(start, consumed) && After(start, consumed) == pos
    ensures InOrder(Bump(pos, m), rest) && After(Bump(pos, m), rest) == After(pos, [m] + rest)
    ensures InOrder(start, consumed + [m]) && After(start, consumed + [m]) == Bump(pos, m)
    ensures (consumed + [m]) + rest == consumed + ([m] + rest)
  {
    InOrderConcat(pos, [m], rest);
    InOrderConcat(start, consumed, [m]);
    assert InOrder(pos, [m]) && After(pos, [m]) == Bump(pos, m);
  }

  lemma PipeAdvanced(env: Env, s: State, s': State, m: Message)
    requires PipeInv(env, s) && SamePipe(s, s')
    requires s.outcomes != [] && s.outcomes[0] == Fetched(m) && s'.outcomes == s.outcomes[1..]
    requires s'.h.pos == Bump(s.h.pos, m) && s'.h.consumed == s.h.consumed + [m]
    ensures PipeInv(env, s')
  {
    PipePopped(s, s');
    var rest := MessagesOf(Pipe(s'));
    assert MessagesOf(Pipe(s)) == [m] + rest;
    OrderAdvanced(s.h.pos, s.h.start, s.h.consumed, m, rest);
    assert m in [m] + rest;
    forall x | x in rest ensures Genuine(env, x) {
      assert x in [m] + rest;
    }
  }

  lemma PipeSkipped(env: Env, s: State, s': State)
    requires PipeInv(env, s) && SamePipe(s, s')
    requires s.outcomes != [] && s.outcomes[0].FetchFailed? && s'.outcomes == s.outcomes[1..]
    requires s'.h.pos == s.h.pos && s'.h.consumed == s.h.consumed
    ensures PipeInv(env, s')
  {
    PipePopped(s, s');
    assert MessagesOf(Pipe(s)) == MessagesOf(Pipe(s'));
  }

  lemma TakeKeepsPipe(env: Env, s: State, io: Io)
    requires PipeInv(env, s) && Enabled(env, s, TakeOutcome(io))
    ensures PipeInv(env, Next(env, s, TakeOutcome(io)))
  {
    var popped := s.(outcomes := s.outcomes[1..]);
    var s' := Next(env, s, TakeOutcome(io));
    match s.outcomes[0] {
      case Fetched(m) =>
        MessageFrame(env, popped, m, io);
        PipeAdvanced(env, s, s', m);
      case FetchFailed =>
        FlushFrame(popped, io);
        PipeSkipped(env, s, s');
    }
  }

  lemma RestartKeepsPipe(env: Env, s: State, s': State)
    requires PipeInv(env, s)
    requires s'.core.watermark == s'.next == s'.h.pos == s'.h.start == s.core.watermark
    requires s'.outcomes == [] && s'.held == None && s'.h.consumed == [] && s'.h.fetched == []
    ensures PipeInv(env, s')
  {
    assert MessagesOf(Pipe(s')) == [];
  }

  lemma CrashKeepsPipe(env: Env, s: State, s': State)
    requires PipeInv(env, s)
    requires s' == s.(core := s'.core, held := None, outcomes := [], fetching := false, running := false, h := s'.h)
    requires s'.h == s.h.(landed := s'.h.landed)
    requires s'.core.watermark == s.core.watermark
    ensures PipeInv(env, s')
  {
    assert MessagesOf(Pipe(s')) == [];
    assert s.h.consumed <= s.h.consumed + MessagesOf(Pipe(s));
  }

  lemma PipeStep(env: Env, s: State, step: Step)
    requires PipeInv(env, s) && Enabled(env, s, step)
    ensures PipeInv(env, Next(env, s, step))
  {
    var s' := Next(env, s, step);
    match step {
      case FetchMessage(p) => FetchKeepsPipe(env, s, p);
      case TakeOutcome(io) => TakeKeepsPipe(env, s, io);
      case TickFlush(io) =>
        FlushFrame(s, io);
        PipeUntouched(env, s, s');
      case FinalFlush(io) =>
        FlushFrame(s, io);
        PipeUntouched(env, s, s');
      case Crash(_, _) => CrashKeepsPipe(env, s, s');
      case Restart => RestartKeepsPipe(env, s, s');
      case FetchError => ErrorKeepsPipe(env, s);
      case StopFetcher => StopKeepsPipe(env, s);
      case _ => PushKeepsPipe(env, s, step);
    }
  }

  // ---- the main loop's three primitives --------------------------------------

  /** The front message of the pipe is the next one of its partition. */
  lemma FrontIsNext(env: Env, s: State)
    requires PipeInv(env, s) && s.outcomes != [] && s.outcomes[0].Fetched?
    ensures var m := s.outcomes[0].msg;
            Genuine(env, m) && m.at.part < |s.h.pos| && m.at.off == s.h.pos[m.at.part]
  {
    assert Pipe(s)[0] == s.outcomes[0];
    assert MessagesOf(Pipe(s))[0] == s.outcomes[0].msg;
  }

  lemma TopBound(msgs: seq<Message>, p: nat, bound: nat)
    requires forall m :: m in msgs && m.at.part == p ==> m.at.off < bound
    ensures Top(msgs, p) <= bound
  {
  }

  lemma MessagesIn(buf: seq<Item>, m: Message)
    requires m in Messages(buf)
    ensures exists it :: it in buf && it.msg == m
  {
    var i :| 0 <= i < |buf| && Messages(buf)[i] == m;
    assert buf[i] in buf;
  }

  lemma BufferCommitBound(env: Env, s: State, o: CommitOutcome, p: nat)
    requires WatermarkInv(env, s) && p < |s.h.pos|
    ensures Commit(s.core.watermark, Messages(s.core.buf), o)[p] <= s.h.pos[p]
  {
    var msgs := Messages(s.core.buf);
    forall m | m in msgs && m.at.part == p ensures m.at.off < s.h.pos[p] {
      MessagesIn(s.core.buf, m);
    }
    TopBound(msgs, p, s.h.pos[p]);
  }

  lemma FlushKeepsWatermark(env: Env, s: State, io: Io)
    requires WatermarkInv(env, s)
    ensures WatermarkInv(env, DoFlush(s, io))
  {
    FlushFrame(s, io);
    var s' := DoFlush(s, io);
    assert s'.core.watermark == s.core.watermark
           || s'.core.watermark == Commit(s.core.watermark, Messages(s.core.buf), io.commit);
    assert s'.core.buf == s.core.buf || s'.core.buf == [];
    forall p | 0 <= p < |s.h.pos| ensures s'.core.watermark[p] <= s.h.pos[p] {
      BufferCommitBound(env, s, io.commit, p);
    }
  }

  lemma FlushKeepsCover(env: Env, s: State, io: Io)
    requires WatermarkInv(env, s) && CoverInv(env, s)
    ensures CoverInv(env, DoFlush(s, io))
  {
    var s' := DoFlush(s, io);
    assert forall it :: it in s.core.buf ==> it.msg.at in Positions(s.core.buf);
    forall it | it in s'.core.buf && it.msg.at !in s'.h.accepted && it.msg.at.part < |s'.h.pos|
      ensures it.msg.at.off < s'.core.watermark[it.msg.at.part] <==> Behind(s'.h.poisoned, it.msg.at)
    {
    }
  }

  lemma CommitAbove(watermark: seq<nat>, start: seq<nat>, buf: seq<Item>, o: CommitOutcome, p: nat)
    requires FromStart(watermark, start, buf) && p < |start|
    ensures start[p] <= Commit(watermark, Messages(buf), o)[p]
  {
    var msgs := Messages(buf);
    if Top(msgs, p) > 0 {
      var m :| m in msgs && m.at == Pos(p, Top(msgs, p) - 1);
      MessagesIn(buf, m);
    }
  }

  lemma CommitFromStart(watermark: seq<nat>, start: seq<nat>, buf: seq<Item>, o: CommitOutcome)
    requires FromStart(watermark, start, buf)
    ensures FromStart(Commit(watermark, Messages(buf), o), start, buf)
    ensures FromStart(Commit(watermark, Messages(buf), o), start, [])
  {
    forall p | 0 <= p < |start| ensures start[p] <= Commit(watermark, Messages(buf), o)[p] {
      CommitAbove(watermark, start, buf, o, p);
    }
  }

  /** Accepting what is buffered accepts nothing that was lost before. */
  lemma LostStaysLost(env: Env, s: State, at: Pos)
    requires StartInv(env, s) && at in s.h.orphans
    ensures Orphaned(env, s.h.start, s.h.accepted + Positions(s.core.buf), at)
  {
    assert Orphaned(env, s.h.start, s.h.accepted, at);
  }

  lemma AllAcceptedBelow(watermark: seq<nat>, buf: seq<Item>, accepted: set<Pos>, poisoned: set<Pos>)
    ensures OvertakersBelow(watermark, buf, accepted + Positions(buf), poisoned)
    ensures OvertakersBelow(watermark, [], accepted, poisoned)
  {
    assert forall it :: it in buf ==> it.msg.at in Positions(buf);
  }

  lemma FlushKeepsStart(env: Env, s: State, io: Io)
    requires StartInv(env, s)
    ensures StartInv(env, DoFlush(s, io))
  {
    CommitFromStart(s.core.watermark, s.h.start, s.core.buf, io.commit);
    var w := Commit(s.core.watermark, Messages(s.core.buf), io.commit);
    AllAcceptedBelow(w, s.core.buf, s.h.accepted, s.h.poisoned);
    AllAcceptedBelow(w, s.core.buf, s.h.accepted + Positions(s.core.buf), {});
    forall at | at in s.h.orphans
      ensures Orphaned(env, s.h.start, s.h.accepted, at)
              && Orphaned(env, s.h.start, s.h.accepted + Positions(s.core.buf), at)
    {
      LostStaysLost(env, s, at);
    }
    match FlushVerdict(s.core, io)
    case NothingToFlush =>
    case WriteError =>
    case CommitError =>
    case Flushed =>
  }

  lemma FlushKeepsRest(env: Env, s: State, io: Io)
    requires LossInv(s)
    requires env.batchMax > 0 ==> |s.core.buf| <= env.batchMax + s.h.failures
    requires env.batchMax > 0 && |s.core.buf| == env.batchMax + s.h.failures ==> s.core.buf != []
    ensures BatchInv(env, s) ==> BatchInv(env, DoFlush(s, io))
    ensures LossInv(DoFlush(s, io))
    ensures GrowthInv(env, DoFlush(s, io))
  {
    var s' := DoFlush(s, io);
    if FlushVerdict(s.core, io) == Flushed {
      var batch := Batch(s.core.buf, io.outs);
      assert s'.h.batches[..|s'.h.batches| - 1] == s.h.batches;
      assert Delivered(s'.h.batches) == Delivered(s.h.batches) + s.core.buf;
      assert forall i :: 0 <= i < |s.core.buf| && Lands(OutcomeAt(io.outs, i)) ==>
                           s.core.buf[i].msg.at in LandedOf(s.core.buf, io.outs);
      forall b, i | b in s'.h.batches && 0 <= i < |b.items| && b.items[i].msg.at !in s'.h.landed
        ensures OutcomeAt(b.outs, i).Failed? && !WriteFails(|b.items|, b.outs)
      {
        if b !in s.h.batches {
          assert b == batch;
        }
      }
    }
  }

  ghost predicate IsNext(env: Env, s: State, m: Message) {
    Genuine(env, m) && m.at.part < |s.h.pos| && m.at.off == s.h.pos[m.at.part]
  }

  lemma AppendKeepsWatermark(env: Env, s: State, m: Message, e: LogEvent)
    requires WatermarkInv(env, s) && IsNext(env, s, m) && env.decode(m.value) == Some(e)
    ensures WatermarkInv(env, DoAppend(s, m, e))
  {
  }

  lemma AppendKeepsCover(env: Env, s: State, m: Message, e: LogEvent)
    requires WatermarkInv(env, s) && CoverInv(env, s) && IsNext(env, s, m) && env.decode(m.value) == Some(e)
    ensures CoverInv(env, DoAppend(s, m, e))
  {
    var s' := DoAppend(s, m, e);
    assert forall it :: it in s.core.buf ==> it in s'.core.buf;
    assert Positions(s.core.buf) <= Positions(s'.core.buf);
    assert Item(m, Process(e)) in s'.core.buf;
    assert m.at in Positions(s'.core.buf);
    forall at: Pos | at.part < |s'.h.pos| && at.off < s'.h.pos[at.part] && Decodable(env, at)
      ensures at in s'.h.accepted || at in s'.h.orphans || at in Positions(s'.core.buf)
    {
      if at != m.at {
        assert at.off < s.h.pos[at.part];
      }
    }
    forall it | it in s'.core.buf && it.msg.at !in s'.h.accepted && it.msg.at.part < |s'.h.pos|
      ensures it.msg.at.off < s'.core.watermark[it.msg.at.part] <==> Behind(s'.h.poisoned, it.msg.at)
    {
      if it !in s.core.buf {
        assert it.msg == m;
      }
    }
  }

  lemma AppendKeepsStart(env: Env, s: State, m: Message, e: LogEvent)
    requires WatermarkInv(env, s) && CoverInv(env, s) && StartInv(env, s)
    requires IsNext(env, s, m) && env.decode(m.value) == Some(e)
    ensures StartInv(env, DoAppend(s, m, e))
  {
  }

  lemma BehindMore(poisoned: set<Pos>, q: Pos, at: Pos)
    ensures Behind(poisoned + {q}, at) <==> Behind(poisoned, at) || (q.part == at.part && q.off > at.off)
  {
    if Behind(poisoned, at) {
      var r :| r in poisoned && r.part == at.part && r.off > at.off;
      assert r in poisoned + {q};
    }
    if q.part == at.part && q.off > at.off {
      assert q in poisoned + {q};
    }
  }

  /** Where the commit of one message leaves a partition. */
  lemma CommitOne(watermark: seq<nat>, m: Message, o: CommitOutcome, p: nat)
    requires p < |watermark|
    ensures Commit(watermark, [m], o)[p] == if p == m.at.part && Applies(o, p) then m.at.off + 1 else watermark[p]
  {
    assert m in [m];
    if p == m.at.part {
      assert Top([m], p) == m.at.off + 1;
    } else {
      assert Top([m], p) == 0;
    }
  }

  lemma RiskMoves(watermark: nat, poisoned: set<Pos>, q: Pos, at: Pos, applied: bool)
    requires at.off < watermark <==> Behind(poisoned, at)
    requires at.part == q.part ==> at.off < q.off
    ensures at.off < (if applied && at.part == q.part then q.off + 1 else watermark)
            <==> Behind(if applied then poisoned + {q} else poisoned, at)
  {
    BehindMore(poisoned, q, at);
  }

  lemma PoisonRisk(env: Env, s: State, m: Message, io: Io, it: Item)
    requires WatermarkInv(env, s) && CoverInv(env, s) && IsNext(env, s, m)
    requires it in s.core.buf && it.msg.at !in s.h.accepted
    ensures var s' := DoPoison(s, m, io);
            it.msg.at.off < s'.core.watermark[it.msg.at.part] <==> Behind(s'.h.poisoned, it.msg.at)
  {
    var at := it.msg.at;
    RiskMoves(s.core.watermark[at.part], s.h.poisoned, m.at, at, Applies(io.commit, m.at.part));
    CommitOne(s.core.watermark, m, io.commit, at.part);
  }

  lemma PoisonKeepsStart(env: Env, s: State, m: Message, io: Io)
    requires WatermarkInv(env, s) && StartInv(env, s) && IsNext(env, s, m)
    ensures StartInv(env, DoPoison(s, m, io))
  {
    var s' := DoPoison(s, m, io);
    forall p | 0 <= p < |s.h.start|
      ensures s'.core.watermark[p] == if p == m.at.part && Applies(io.commit, p) then m.at.off + 1 else s.core.watermark[p]
    {
      CommitOne(s.core.watermark, m, io.commit, p);
    }
  }

  lemma PoisonKeepsWatermark(env: Env, s: State, m: Message, io: Io)
    requires WatermarkInv(env, s) && IsNext(env, s, m)
    ensures WatermarkInv(env, DoPoison(s, m, io))
  {
    forall p | 0 <= p < |s.h.pos| ensures DoPoison(s, m, io).core.watermark[p] <= Bump(s.h.pos, m)[p] {
      CommitOne(s.core.watermark, m, io.commit, p);
    }
  }

  lemma PoisonKeepsCover(env: Env, s: State, m: Message, io: Io)
    requires WatermarkInv(env, s) && CoverInv(env, s) && IsNext(env, s, m) && env.decode(m.value).None?
    ensures CoverInv(env, DoPoison(s, m, io))
  {
    var s' := DoPoison(s, m, io);
    forall at: Pos | at.part < |s'.h.pos| && at.off < s'.h.pos[at.part] && Decodable(env, at)
      ensures at in s'.h.accepted || at in s'.h.orphans || at in Positions(s'.core.buf)
    {
      assert at != m.at;
      assert at.off < s.h.pos[at.part];
    }
    forall it | it in s'.core.buf && it.msg.at !in s'.h.accepted && it.msg.at.part < |s'.h.pos|
      ensures it.msg.at.off < s'.core.watermark[it.msg.at.part] <==> Behind(s'.h.poisoned, it.msg.at)
    {
      PoisonRisk(env, s, m, io, it);
    }
  }

  lemma ItemsOfAppend(env: Env, msgs: seq<Message>, m: Message)
    ensures ItemsOf(env, msgs + [m])
         == ItemsOf(env, msgs)
            + match env.decode(m.value) case None => [] case Some(e) => [Item(m, Process(e))]
  {
    assert (msgs + [m])[..|msgs|] == msgs;
  }

  lemma PoisonKeepsInv(env: Env, s: State, m: Message, io: Io)
    requires LoopInv(env, s) && IsNext(env, s, m) && env.decode(m.value).None?
    ensures LoopInv(env, DoPoison(s, m, io))
  {
    ItemsOfAppend(env, s.h.consumed, m);
    PoisonKeepsWatermark(env, s, m, io);
    PoisonKeepsCover(env, s, m, io);
    PoisonKeepsStart(env, s, m, io);
  }

  /** The invariant but for the growth bound, which the append may break until
      the flush that follows. */
  ghost predicate MidInv(env: Env, s: State) {
    WatermarkInv(env, s) && CoverInv(env, s) && StartInv(env, s) && BatchInv(env, s) && LossInv(s)
  }

  lemma AppendKeepsMid(env: Env, s: State, m: Message, e: LogEvent)
    requires MidInv(env, s) && IsNext(env, s, m) && env.decode(m.value) == Some(e)
    ensures MidInv(env, DoAppend(s, m, e))
  {
    var s' := DoAppend(s, m, e);
    ItemsOfAppend(env, s.h.consumed, m);
    AppendKeepsWatermark(env, s, m, e);
    AppendKeepsCover(env, s, m, e);
    AppendKeepsStart(env, s, m, e);
    assert Delivered(s'.h.batches) + s'.core.buf == (Delivered(s.h.batches) + s.core.buf) + [Item(m, Process(e))];
  }

  lemma FlushMid(env: Env, s: State, io: Io)
    requires MidInv(env, s) && s.core.buf != []
    requires env.batchMax > 0 ==> |s.core.buf| <= env.batchMax + s.h.failures
    ensures LoopInv(env, DoFlush(s, io))
  {
    FlushKeepsWatermark(env, s, io);
    FlushKeepsCover(env, s, io);
    FlushKeepsStart(env, s, io);
    FlushKeepsRest(env, s, io);
  }

  lemma MessageKeepsInv(env: Env, s: State, m: Message, io: Io)
    requires LoopInv(env, s) && IsNext(env, s, m)
    ensures LoopInv(env, DoMessage(env, s, m, io))
  {
    match env.decode(m.value)
    case None => PoisonKeepsInv(env, s, m, io);
    case Some(e) =>
      AppendKeepsMid(env, s, m, e);
      if |DoAppend(s, m, e).core.buf| >= env.batchMax {
        FlushMid(env, DoAppend(s, m, e), io);
      }
  }

  lemma FlushKeepsInv(env: Env, s: State, io: Io)
    requires LoopInv(env, s)
    ensures var s' := DoFlush(s, io);
            LoopInv(env, s')
  {
    FlushKeepsWatermark(env, s, io);
    FlushKeepsCover(env, s, io);
    FlushKeepsStart(env, s, io);
    FlushKeepsRest(env, s, io);
  }

  lemma PassedFurther(env: Env, at: Pos, v: nat, w: nat)
    requires Passed(env, at, v) && v <= w
    ensures Passed(env, at, w)
  {
    var q :| Undecodable(env, q) && q.part == at.part && at.off < q.off < v;
    assert q.off < w;
  }

  lemma AbandonedPassed(env: Env, s: State, at: Pos)
    requires WatermarkInv(env, s) && CoverInv(env, s) && StartInv(env, s) && at in Abandoned(s)
    ensures Orphaned(env, s.core.watermark, s.h.accepted, at)
  {
    assert Behind(s.h.poisoned, at);
    var q :| q in s.h.poisoned && q.part == at.part && q.off > at.off;
    assert Undecodable(env, q) && q.off < s.core.watermark[q.part];
  }

  lemma RestartKeepsStart(env: Env, s: State)
    requires WatermarkInv(env, s) && CoverInv(env, s) && StartInv(env, s) && !s.running
    ensures StartInv(env, Next(env, s, Restart))
  {
    var s' := Next(env, s, Restart);
    forall at | at in s'.h.orphans ensures Orphaned(env, s'.h.start, s'.h.accepted, at) {
      if at in s.h.orphans {
        assert Orphaned(env, s.h.start, s.h.accepted, at);
        PassedFurther(env, at, s.h.start[at.part], s'.h.start[at.part]);
      } else {
        AbandonedPassed(env, s, at);
      }
    }
  }

  lemma RestartKeepsInv(env: Env, s: State)
    requires WatermarkInv(env, s) && CoverInv(env, s) && StartInv(env, s) && LossInv(s) && !s.running
    ensures var s' := Next(env, s, Restart);
            LoopInv(env, s')
  {
    var s' := Next(env, s, Restart);
    forall at: Pos | at.part < |s'.h.pos| && at.off < s'.h.pos[at.part] && Decodable(env, at)
      ensures at in s'.h.accepted || at in s'.h.orphans
    {
      if at !in s.h.accepted && at !in s.h.orphans {
        assert at in Positions(s.core.buf);
        assert at in Abandoned(s);
      }
    }
    RestartKeepsStart(env, s);
  }

  lemma LoopFrame(env: Env, s: State, s': State)
    requires LoopInv(env, s)
    requires s'.core.watermark == s.core.watermark && s'.core.buf == s.core.buf
    requires s'.h == s.h.(fetched := s'.h.fetched, landed := s'.h.landed) && s.h.landed <= s'.h.landed
    ensures LoopInv(env, s')
  {
  }

  lemma LoopStep(env: Env, s: State, step: Step)
    requires Inv(env, s) && Enabled(env, s, step)
    ensures LoopInv(env, Next(env, s, step))
  {
    var s' := Next(env, s, step);
    match step {
      case TickFlush(io) => FlushKeepsInv(env, s, io);
      case FinalFlush(io) =>
        FlushKeepsInv(env, s, io);
        LoopFrame(env, DoFlush(s, io), s');
      case TakeOutcome(io) =>
        var popped := s.(outcomes := s.outcomes[1..]);
        LoopFrame(env, s, popped);
        match s.outcomes[0] {
          case Fetched(m) =>
            FrontIsNext(env, s);
            MessageKeepsInv(env, popped, m, io);
          case FetchFailed =>
            FlushKeepsInv(env, popped, io);
            if s.cancelled {
              LoopFrame(env, DoFlush(popped, io), s');
            }
        }
      case Restart => RestartKeepsInv(env, s);
      case _ => LoopFrame(env, s, s');
    }
  }

  lemma InitInv(env: Env, store: Store)
    ensures Inv(env, Init(env, store))
  {
    assert MessagesOf(Pipe(Init(env, store))) == [];
  }

  lemma {:induction false} PathInv(env: Env, a: State, steps: seq<Step>, b: State)
    requires Inv(env, a) && Path(env, a, steps, b)
    ensures Inv(env, b)
    decreases |steps|
  {
    if steps != [] {
      PipeStep(env, a, steps[0]);
      LoopStep(env, a, steps[0]);
      PathInv(env, Next(env, a, steps[0]), steps[1..], b);
    }
  }

  ghost predicate Reachable(env: Env, store: Store, s: State) {
    exists steps :: Path(env, Init(env, store), steps, s)
  }

  lemma ReachableInv(env: Env, store: Store, s: State)
    requires Reachable(env, store, s)
    ensures Inv(env, s)
  {
    var steps :| Path(env, Init(env, store), steps, s);
    InitInv(env, store);
    PathInv(env, Init(env, store), steps, s);
  }
}
