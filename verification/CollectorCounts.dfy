/** What the collector's counters count, and the slot accounting of drop_oldest,
    in every interleaving. */
module CollectorCounts {
  import opened Domain
  import opened Config
  import opened CollectorModel
  import opened CollectorFates

  // ---- counting the calls at given places ------------------------------------

  function Tally(calls: seq<CallPc>, p: CallPc -> bool): nat {
    if calls == [] then 0
    else
      var n := |calls| - 1;
      Tally(calls[..n], p) + if p(calls[n]) then 1 else 0
  }

  lemma {:induction false} TallyUpdate(calls: seq<CallPc>, i: nat, pc: CallPc, p: CallPc -> bool)
    requires i < |calls|
    ensures Tally(calls[i := pc], p) + (if p(calls[i]) then 1 else 0) == Tally(calls, p) + (if p(pc) then 1 else 0)
  {
    var n := |calls| - 1;
    if i == n {
      assert calls[i := pc][..n] == calls[..n];
    } else {
      assert calls[i := pc][..n] == calls[..n][i := pc];
      TallyUpdate(calls[..n], i, pc, p);
    }
  }

  lemma TallySnoc(calls: seq<CallPc>, pc: CallPc, p: CallPc -> bool)
    ensures Tally(calls + [pc], p) == Tally(calls, p) + if p(pc) then 1 else 0
  {
    assert (calls + [pc])[..|calls|] == calls;
  }

  /** A property that splits in four disjoint ones is counted in four parts. */
  lemma {:induction false} TallySplit(calls: seq<CallPc>, p: CallPc -> bool, a: CallPc -> bool, b: CallPc -> bool,
                                      c: CallPc -> bool, d: CallPc -> bool)
    requires forall pc :: pc in calls ==>
                            (if p(pc) then 1 else 0)
                            == (if a(pc) then 1 else 0) + (if b(pc) then 1 else 0) + (if c(pc) then 1 else 0)
                               + (if d(pc) then 1 else 0)
    ensures Tally(calls, p) == Tally(calls, a) + Tally(calls, b) + Tally(calls, c) + Tally(calls, d)
  {
    if calls != [] {
      var n := |calls| - 1;
      assert calls[n] in calls && forall pc :: pc in calls[..n] ==> pc in calls;
      TallySplit(calls[..n], p, a, b, c, d);
    }
  }

  lemma {:induction false} TallyAll(calls: seq<CallPc>, p: CallPc -> bool)
    requires forall pc :: pc in calls ==> p(pc)
    ensures Tally(calls, p) == |calls|
  {
    if calls != [] {
      var n := |calls| - 1;
      assert calls[n] in calls && forall pc :: pc in calls[..n] ==> pc in calls;
      TallyAll(calls[..n], p);
    }
  }

  lemma {:induction false} TallyNone(calls: seq<CallPc>, p: CallPc -> bool)
    requires forall pc :: pc in calls ==> !p(pc)
    ensures Tally(calls, p) == 0
  {
    if calls != [] {
      var n := |calls| - 1;
      assert calls[n] in calls && forall pc :: pc in calls[..n] ==> pc in calls;
      TallyNone(calls[..n], p);
    }
  }

  predicate IsRefused(pc: CallPc) { pc.Refused? }
  predicate IsAccepted(pc: CallPc) { pc.Accepted? }
  predicate IsCountIngest(pc: CallPc) { pc.CountIngest? }
  predicate IsSaturated(pc: CallPc) { pc.Saturated? }
  predicate IsPanicked(pc: CallPc) { pc.Panicked? }
  predicate IsCountEviction(pc: CallPc) { pc.CountEviction? }

  /** Counted a drop for the receive from the closed channel. */
  predicate CountedClosed(pc: CallPc) { pc == RetrySend(AfterClosed) || pc == Panicked(AfterClosed) }

  /** Evicted a job on its way. */
  predicate HasEvicted(pc: CallPc) {
    pc.CountEviction? || pc == RetrySend(AfterEviction) || pc == CountIngest(AfterEviction)
    || pc == Accepted(AfterEviction) || pc == CountReject(AfterEviction) || pc == Saturated(AfterEviction)
    || pc == Panicked(AfterEviction)
  }

  ghost predicate ClosedOk(pc: CallPc, closed: bool) {
    && (pc.CountClosedReceive? || CountedClosed(pc) || pc.Panicked? ==> closed)
    && pc != CountIngest(AfterClosed) && pc != Accepted(AfterClosed)
    && pc != CountReject(AfterClosed) && pc != Saturated(AfterClosed)
  }

  /** The call side of the books: where the calls are, the counters, and the
      numbers of jobs sent, queued, received by workers and evicted. */
  ghost predicate CallBalance(calls: seq<CallPc>, c: Counters, sent: nat, queued: nat, received: nat, evicted: nat,
                              closed: bool)
  {
    && SendBalance(calls, c, sent)
    && DropBalance(calls, c, evicted)
    && sent == queued + received + evicted
    && (forall i :: 0 <= i < |calls| ==> ClosedOk(calls[i], closed))
  }

  ghost predicate SendBalance(calls: seq<CallPc>, c: Counters, sent: nat) {
    && c.empty == Tally(calls, IsRefused)
    && c.ingested == Tally(calls, IsAccepted)
    && sent == Tally(calls, IsAccepted) + Tally(calls, IsCountIngest)
  }

  ghost predicate DropBalance(calls: seq<CallPc>, c: Counters, evicted: nat) {
    && c.full + Tally(calls, IsCountEviction) == evicted + Tally(calls, IsSaturated) + Tally(calls, CountedClosed)
    && evicted == Tally(calls, HasEvicted)
  }

  ghost predicate CallCounts(s: State) {
    CallBalance(s.calls, s.counters, |s.sent|, |s.queue|, |Received(s)|, |Evicted(s)|, s.closed)
  }

  /** Workers with no job in their hands. */
  function Free(m: multiset<WorkerPc>): nat {
    m[Receiving] + m[CountParseError] + m[CountPublishError] + m[CountPublished] + m[Exited]
  }

  /** The worker side: numbers of jobs finished with each verdict, and received. */
  ghost predicate WorkerBalance(m: multiset<WorkerPc>, c: Counters, published: nat, parseFailed: nat,
                                publishFailed: nat, received: nat)
  {
    && c.published + m[CountPublished] == published
    && c.parseError + m[CountParseError] == parseFailed
    && c.publishError + m[CountPublishError] == publishFailed
    && received + Free(m) == |m| + published + parseFailed + publishFailed
  }

  function NumEnded(s: State, v: Verdict): nat {
    |Ended(s.finished, v)|
  }

  ghost predicate WorkerCounts(s: State) {
    && WorkerBalance(multiset(s.workers), s.counters, NumEnded(s, Published), NumEnded(s, ParseFailed),
                     NumEnded(s, PublishFailed), |Received(s)|)
    && |s.finished| == NumEnded(s, Published) + NumEnded(s, ParseFailed) + NumEnded(s, PublishFailed)
  }

  lemma EvictCounts(s: State, i: nat)
    requires i < |s.calls| && i < |s.mark| && s.queue != []
    ensures Received(Evict(s, i)) == Received(s) && |Evicted(Evict(s, i))| == |Evicted(s)| + 1
  {
    TakenSnoc(s.departed, Departure(s.queue[0], false));
  }

  /** How the books move when a call goes from place a to place b. */
  predicate BookMove(a: CallPc, b: CallPc, c: Counters, c': Counters, sends: int, evictions: int, closed: bool) {
    match a
    case CountEmpty => b == Refused && c' == c.(empty := c.empty + 1) && sends == evictions == 0
    case FirstSend =>
      c' == c && evictions == 0
      && (if b == CountIngest(Direct) then sends == 1
          else sends == 0 && ((b == Panicked(Direct) && closed) || b == MiddleSelect || b == CountReject(Direct)))
    case MiddleSelect =>
      c' == c && sends == 0
      && (if b == CountEviction then evictions == 1
          else evictions == 0 && ((b == CountClosedReceive && closed) || b == RetrySend(AfterEmpty)))
    case CountEviction =>
      b == RetrySend(AfterEviction) && c' == c.(full := c.full + 1) && sends == evictions == 0
    case CountClosedReceive =>
      b == RetrySend(AfterClosed) && c' == c.(full := c.full + 1) && sends == evictions == 0
    case RetrySend(route) =>
      c' == c && evictions == 0
      && (if closed then b == Panicked(route) && sends == 0
          else if b == CountIngest(route) then sends == 1
          else b == CountReject(route) && sends == 0)
    case CountIngest(route) =>
      b == Accepted(route) && c' == c.(ingested := c.ingested + 1) && sends == evictions == 0
    case CountReject(route) =>
      b == Saturated(route) && c' == c.(full := c.full + 1) && sends == evictions == 0
    case _ => false
  }

  lemma SendMove(calls: seq<CallPc>, i: nat, b: CallPc, c: Counters, c': Counters, sends: int, evictions: int,
                 sent: nat, closed: bool)
    requires SendBalance(calls, c, sent) && i < |calls|
    requires BookMove(calls[i], b, c, c', sends, evictions, closed)
    ensures sends >= 0 && SendBalance(calls[i := b], c', sent + sends)
  {
    TallyUpdate(calls, i, b, IsRefused);
    TallyUpdate(calls, i, b, IsAccepted);
    TallyUpdate(calls, i, b, IsCountIngest);
  }

  lemma DropMove(calls: seq<CallPc>, i: nat, b: CallPc, c: Counters, c': Counters, sends: int, evictions: int,
                 evicted: nat, closed: bool)
    requires DropBalance(calls, c, evicted) && i < |calls|
    requires BookMove(calls[i], b, c, c', sends, evictions, closed) && ClosedOk(calls[i], closed)
    ensures evictions >= 0 && DropBalance(calls[i := b], c', evicted + evictions)
  {
    TallyUpdate(calls, i, b, IsSaturated);
    TallyUpdate(calls, i, b, IsCountEviction);
    TallyUpdate(calls, i, b, CountedClosed);
    TallyUpdate(calls, i, b, HasEvicted);
  }

  lemma BalanceMove(calls: seq<CallPc>, i: nat, b: CallPc, c: Counters, c': Counters, sends: int, evictions: int,
                    sent: nat, queued: nat, received: nat, evicted: nat, closed: bool)
    requires CallBalance(calls, c, sent, queued, received, evicted, closed) && i < |calls|
    requires BookMove(calls[i], b, c, c', sends, evictions, closed)
    requires queued + sends - evictions >= 0
    ensures CallBalance(calls[i := b], c', sent + sends, queued + sends - evictions, received,
                        evicted + evictions, closed)
  {
    assert ClosedOk(calls[i], closed);
    SendMove(calls, i, b, c, c', sends, evictions, sent, closed);
    DropMove(calls, i, b, c, c', sends, evictions, evicted, closed);
  }

  lemma ProducerMoves(s: State, i: nat)
    requires Enabled(s, Producer(i))
    ensures var s' := ProducerNext(s, i);
            && |s'.calls| == |s.calls| && s'.calls == s.calls[i := s'.calls[i]]
            && BookMove(s.calls[i], s'.calls[i], s.counters, s'.counters, |s'.sent| - |s.sent|,
                        |Evicted(s')| - |Evicted(s)|, s.closed)
            && |s'.queue| == |s.queue| + (|s'.sent| - |s.sent|) - (|Evicted(s')| - |Evicted(s)|)
            && Received(s') == Received(s) && s'.closed == s.closed
            && s'.workers == s.workers && s'.finished == s.finished
            && s'.counters.published == s.counters.published && s'.counters.parseError == s.counters.parseError
            && s'.counters.publishError == s.counters.publishError
  {
    if s.calls[i] == MiddleSelect && s.queue != [] {
      EvictCounts(s, i);
    }
  }

  lemma ProducerKeepsCounts(s: State, i: nat)
    requires CallCounts(s) && WorkerCounts(s) && Enabled(s, Producer(i))
    ensures CallCounts(ProducerNext(s, i)) && WorkerCounts(ProducerNext(s, i))
  {
    var s' := ProducerNext(s, i);
    ProducerMoves(s, i);
    BalanceMove(s.calls, i, s'.calls[i], s.counters, s'.counters, |s'.sent| - |s.sent|,
                |Evicted(s')| - |Evicted(s)|, |s.sent|, |s.queue|, |Received(s)|, |Evicted(s)|, s.closed);
  }

  lemma BeginKeepsCounts(s: State, raw: Bytes)
    requires CallCounts(s)
    ensures CallCounts(Next(s, Begin(raw)))
  {
    var pc := if raw == [] then CountEmpty else FirstSend;
    TallySnoc(s.calls, pc, IsRefused);
    TallySnoc(s.calls, pc, IsAccepted);
    TallySnoc(s.calls, pc, IsCountIngest);
    TallySnoc(s.calls, pc, IsSaturated);
    TallySnoc(s.calls, pc, IsCountEviction);
    TallySnoc(s.calls, pc, CountedClosed);
    TallySnoc(s.calls, pc, HasEvicted);
  }

  // ---- workers ---------------------------------------------------------------

  /** How the books move when a worker goes from a to b: `took` counts the job it
      receives, `ended` is the verdict it reaches. */
  predicate WorkerMove(a: WorkerPc, b: WorkerPc, c: Counters, c': Counters, took: nat, ended: Option<Verdict>) {
    match a
    case Receiving => c' == c && ended == None && (if b.Parsing? then took == 1 else b == Exited && took == 0)
    case Parsing(j) =>
      c' == c && took == 0
      && (if b == Publishing(j) then ended == None else b == CountParseError && ended == Some(ParseFailed))
    case Publishing(_) =>
      c' == c && took == 0
      && (if b == CountPublished then ended == Some(Published)
          else b == CountPublishError && ended == Some(PublishFailed))
    case CountParseError =>
      b == Receiving && c' == c.(parseError := c.parseError + 1) && took == 0 && ended == None
    case CountPublishError =>
      b == Receiving && c' == c.(publishError := c.publishError + 1) && took == 0 && ended == None
    case CountPublished =>
      b == Receiving && c' == c.(published := c.published + 1) && took == 0 && ended == None
    case Exited => false
  }

  function One(ended: Option<Verdict>, v: Verdict): nat {
    if ended == Some(v) then 1 else 0
  }

  lemma WorkerBalanceMove(m: multiset<WorkerPc>, a: WorkerPc, b: WorkerPc, c: Counters, c': Counters, took: nat,
                          ended: Option<Verdict>, published: nat, parseFailed: nat, publishFailed: nat, received: nat)
    requires WorkerBalance(m, c, published, parseFailed, publishFailed, received) && a in m
    requires WorkerMove(a, b, c, c', took, ended)
    ensures WorkerBalance(m - multiset{a} + multiset{b}, c', published + One(ended, Published),
                          parseFailed + One(ended, ParseFailed), publishFailed + One(ended, PublishFailed),
                          received + took)
  {
    assert m[a] > 0;
  }

  lemma FinishCounts(fs: seq<Finish>, j: Job, v: Verdict, u: Verdict)
    ensures |Ended(fs + [Finish(j, v)], u)| == |Ended(fs, u)| + if u == v then 1 else 0
  {
    EndedSnoc(fs, Finish(j, v), u);
  }

  function Ending(s: State, w: nat, ok: bool): Option<Verdict>
    requires w < |s.workers|
  {
    match s.workers[w]
    case Parsing(_) => if ok then None else Some(ParseFailed)
    case Publishing(_) => Some(if ok then Published else PublishFailed)
    case _ => None
  }

  function Taking(s: State, w: nat): nat
    requires w < |s.workers|
  {
    if s.workers[w].Receiving? && s.queue != [] then 1 else 0
  }

  lemma WorkerMoves(s: State, w: nat, ok: bool)
    requires Enabled(s, Worker(w, ok))
    ensures var s' := WorkerNext(s, w, ok);
            && |s'.workers| == |s.workers| && s'.workers == s.workers[w := s'.workers[w]]
            && WorkerMove(s.workers[w], s'.workers[w], s.counters, s'.counters, Taking(s, w), Ending(s, w, ok))
            && |s'.queue| == |s.queue| - Taking(s, w)
            && |s'.finished| == |s.finished| + (if Ending(s, w, ok).Some? then 1 else 0)
            && s'.calls == s.calls && s'.sent == s.sent && s'.closed == s.closed
            && s'.counters.empty == s.counters.empty && s'.counters.full == s.counters.full
            && s'.counters.ingested == s.counters.ingested
  {
  }

  lemma WorkerReceives(s: State, w: nat, ok: bool)
    requires Enabled(s, Worker(w, ok))
    ensures var s' := WorkerNext(s, w, ok);
            |Received(s')| == |Received(s)| + Taking(s, w) && Evicted(s') == Evicted(s)
  {
    if s.workers[w].Receiving? && s.queue != [] {
      TakenSnoc(s.departed, Departure(s.queue[0], true));
    }
  }

  lemma WorkerEnds(s: State, w: nat, ok: bool, v: Verdict)
    requires Enabled(s, Worker(w, ok))
    ensures NumEnded(WorkerNext(s, w, ok), v) == NumEnded(s, v) + One(Ending(s, w, ok), v)
  {
    var s' := WorkerNext(s, w, ok);
    match Ending(s, w, ok)
    case None => assert s'.finished == s.finished;
    case Some(u) =>
      var j := s.workers[w].job;
      assert s'.finished == s.finished + [Finish(j, u)];
      FinishCounts(s.finished, j, u, v);
  }

  lemma WorkerKeepsCounts(s: State, w: nat, ok: bool)
    requires CallCounts(s) && WorkerCounts(s) && Enabled(s, Worker(w, ok))
    ensures CallCounts(WorkerNext(s, w, ok)) && WorkerCounts(WorkerNext(s, w, ok))
  {
    var s' := WorkerNext(s, w, ok);
    WorkerMoves(s, w, ok);
    WorkerReceives(s, w, ok);
    WorkerEnds(s, w, ok, Published);
    WorkerEnds(s, w, ok, ParseFailed);
    WorkerEnds(s, w, ok, PublishFailed);
    assert s.workers[w] in s.workers;
    assert multiset(s'.workers) == multiset(s.workers) - multiset{s.workers[w]} + multiset{s'.workers[w]};
    WorkerBalanceMove(multiset(s.workers), s.workers[w], s'.workers[w], s.counters, s'.counters, Taking(s, w),
                      Ending(s, w, ok), NumEnded(s, Published), NumEnded(s, ParseFailed), NumEnded(s, PublishFailed),
                      |Received(s)|);
  }

  lemma CountStep(s: State, step: Step)
    requires CallCounts(s) && WorkerCounts(s) && Enabled(s, step)
    ensures CallCounts(Next(s, step)) && WorkerCounts(Next(s, step))
  {
    match step {
      case Begin(raw) => BeginKeepsCounts(s, raw);
      case Producer(i) => ProducerKeepsCounts(s, i);
      case Worker(w, ok) => WorkerKeepsCounts(s, w, ok);
      case _ =>
    }
  }

  // ---- the whole invariant over runs -----------------------------------------

  ghost predicate Inv(s: State) {
    FateInv(s) && CallCounts(s) && WorkerCounts(s)
  }

  lemma InitInv(cfg: BackpressureConfig)
    requires Usable(cfg)
    ensures Inv(Init(cfg))
  {
    var s := Init(cfg);
    forall j ensures JobOk(s, j) {
      assert forall x :: x in s.workers ==> x == Receiving;
      assert InHand(s, j) == 0;
    }
    AllReceiving(s.workers);
  }

  lemma {:induction false} AllReceiving(ws: seq<WorkerPc>)
    requires forall w :: w in ws ==> w == Receiving
    ensures multiset(ws)[Receiving] == |ws| && Free(multiset(ws)) == |ws|
  {
    if ws != [] {
      var n := |ws| - 1;
      assert ws == ws[..n] + [ws[n]] && ws[n] in ws;
      assert forall w :: w in ws[..n] ==> w in ws;
      AllReceiving(ws[..n]);
    }
  }

  lemma {:induction false} PathInv(a: State, steps: seq<Step>, b: State)
    requires Inv(a) && Path(a, steps, b)
    ensures Inv(b)
    decreases |steps|
  {
    if steps != [] {
      FateStep(a, steps[0]);
      CountStep(a, steps[0]);
      PathInv(Next(a, steps[0]), steps[1..], b);
    }
  }

  lemma ReachableInv(cfg: BackpressureConfig, s: State)
    requires Reachable(cfg, s)
    ensures Inv(s)
  {
    var steps :| Path(Init(cfg), steps, s);
    InitInv(cfg);
    PathInv(Init(cfg), steps, s);
  }

  // ---- results ---------------------------------------------------------------

  /** Every payload has exactly one fate: a call that sent has its job, with the
      bytes it was given, in exactly one place (queued, in one worker's hands,
      finished, evicted) exactly once; a call that did not has it nowhere. */
  lemma ExactlyOneFate(cfg: BackpressureConfig, s: State, i: nat)
    requires Reachable(cfg, s) && i < |s.calls|
    ensures i < |s.payloads|
    ensures Occurrences(s, JobOf(s, i)) == if Sent(s.calls[i]) then 1 else 0
    ensures multiset(s.sent)[JobOf(s, i)] == if Sent(s.calls[i]) then 1 else 0
    ensures forall j: Job :: j.call == i && j.payload != s.payloads[i] ==> Occurrences(s, j) == 0
    ensures s.payloads[i] == [] <==> ForEmpty(s.calls[i])
  {
    ReachableInv(cfg, s);
    assert JobOk(s, JobOf(s, i)) && CallOk(s, i);
    forall j: Job | j.call == i && j.payload != s.payloads[i] ensures Occurrences(s, j) == 0 {
      assert JobOk(s, j);
    }
  }

  /** In every state each counter lags its events by the goroutines standing
      between the event and the increment. */
  lemma CounterMeaning(cfg: BackpressureConfig, s: State)
    requires Reachable(cfg, s)
    ensures s.counters.empty == Tally(s.calls, IsRefused)
    ensures s.counters.ingested + Tally(s.calls, IsCountIngest) == |s.sent|
    ensures s.counters.full + Tally(s.calls, IsCountEviction)
         == |Evicted(s)| + Tally(s.calls, IsSaturated) + Tally(s.calls, CountedClosed)
    ensures s.counters.published + multiset(s.workers)[CountPublished] == NumEnded(s, Published)
    ensures s.counters.parseError + multiset(s.workers)[CountParseError] == NumEnded(s, ParseFailed)
    ensures s.counters.publishError + multiset(s.workers)[CountPublishError] == NumEnded(s, PublishFailed)
    ensures |s.sent| == |s.queue| + |Received(s)| + |Evicted(s)|
  {
    ReachableInv(cfg, s);
  }

  ghost predicate Quiescent(s: State) {
    AllDone(s) && s.queue == []
    && forall w :: 0 <= w < |s.workers| ==> s.workers[w].Receiving? || s.workers[w].Exited?
  }

  function DropTotal(c: Counters): nat {
    c.empty + c.full + c.parseError + c.publishError
  }

  lemma {:induction false} ResolvedFree(ws: seq<WorkerPc>)
    requires forall w :: w in ws ==> w.Receiving? || w.Exited?
    ensures Free(multiset(ws)) == |ws|
    ensures multiset(ws)[CountPublished] == multiset(ws)[CountParseError] == multiset(ws)[CountPublishError] == 0
  {
    if ws != [] {
      var n := |ws| - 1;
      assert ws == ws[..n] + [ws[n]] && ws[n] in ws;
      assert forall w :: w in ws[..n] ==> w in ws;
      ResolvedFree(ws[..n]);
    }
  }

  /** At rest the books close: every call is published, dropped, or panicked on
      the closed channel; and every accepted payload was published, evicted, or
      failed in a worker. A call that received from the closed channel before it
      panicked also counted one drop that is nobody's. */
  lemma BooksClose(cfg: BackpressureConfig, s: State)
    requires Reachable(cfg, s) && Quiescent(s)
    ensures |s.calls| + Tally(s.calls, CountedClosed)
         == s.counters.published + DropTotal(s.counters) + Tally(s.calls, IsPanicked)
    ensures s.counters.ingested
         == s.counters.published + |Evicted(s)| + s.counters.parseError + s.counters.publishError
  {
    ReachableInv(cfg, s);
    forall pc | pc in s.calls ensures CallDone(pc) {
      var i :| 0 <= i < |s.calls| && s.calls[i] == pc;
    }
    forall w | w in s.workers ensures w.Receiving? || w.Exited? {
      var i :| 0 <= i < |s.workers| && s.workers[i] == w;
    }
    ResolvedFree(s.workers);
    TallyAll(s.calls, CallDone);
    TallySplit(s.calls, CallDone, IsRefused, IsAccepted, IsSaturated, IsPanicked);
    TallyNone(s.calls, IsCountIngest);
    TallyNone(s.calls, IsCountEviction);
  }

  // ---- slot accounting of drop_oldest ----------------------------------------

  predicate EvictedNotRetried(pc: CallPc) { pc.CountEviction? || pc == RetrySend(AfterEviction) }
  predicate SentAfterEviction(pc: CallPc) { pc == CountIngest(AfterEviction) || pc == Accepted(AfterEviction) }
  predicate RejectedAfterEviction(pc: CallPc) { pc == CountReject(AfterEviction) || pc == Saturated(AfterEviction) }
  predicate PanickedAfterEviction(pc: CallPc) { pc == Panicked(AfterEviction) }
  predicate SentDirectly(pc: CallPc) { pc == CountIngest(Direct) || pc == Accepted(Direct) }
  predicate SentAfterEmpty(pc: CallPc) { pc == CountIngest(AfterEmpty) || pc == Accepted(AfterEmpty) }
  predicate SentAfterClosed(pc: CallPc) { pc == CountIngest(AfterClosed) || pc == Accepted(AfterClosed) }

  lemma EvictedSplit(calls: seq<CallPc>)
    ensures Tally(calls, HasEvicted)
         == Tally(calls, EvictedNotRetried) + Tally(calls, SentAfterEviction)
            + Tally(calls, RejectedAfterEviction) + Tally(calls, PanickedAfterEviction)
  {
    TallySplit(calls, HasEvicted, EvictedNotRetried, SentAfterEviction, RejectedAfterEviction, PanickedAfterEviction);
  }

  lemma SentRoutes(pc: CallPc, closed: bool)
    requires ClosedOk(pc, closed) && Sent(pc)
    ensures SentDirectly(pc) || SentAfterEviction(pc) || SentAfterEmpty(pc)
  {
    match pc.route
    case Direct => case AfterEviction => case AfterEmpty => case AfterClosed =>
  }

  lemma SentSplit(calls: seq<CallPc>, closed: bool)
    requires forall i :: 0 <= i < |calls| ==> ClosedOk(calls[i], closed)
    ensures Tally(calls, IsAccepted) + Tally(calls, IsCountIngest)
         == Tally(calls, SentDirectly) + Tally(calls, SentAfterEviction) + Tally(calls, SentAfterEmpty)
  {
    forall pc | pc in calls && Sent(pc)
      ensures !SentAfterClosed(pc) && (SentDirectly(pc) || SentAfterEviction(pc) || SentAfterEmpty(pc))
    {
      var i :| 0 <= i < |calls| && calls[i] == pc;
      SentRoutes(pc, closed);
    }
    TallyNone(calls, SentAfterClosed);
    TallySplit(calls, Sent, SentDirectly, SentAfterEviction, SentAfterEmpty, SentAfterClosed);
    TallySplit(calls, Sent, IsAccepted, IsCountIngest, SentAfterClosed, SentAfterClosed);
  }

  /** Slots: a queued job, a received one, an eviction not yet used and an
      eviction wasted add up to the sends that evicted nothing. So rejections
      after an eviction never exceed those sends. */
  lemma SlotAccounting(cfg: BackpressureConfig, s: State)
    requires Reachable(cfg, s)
    ensures |s.queue| + |Received(s)| + Tally(s.calls, EvictedNotRetried) + Tally(s.calls, RejectedAfterEviction)
            + Tally(s.calls, PanickedAfterEviction)
         == Tally(s.calls, SentDirectly) + Tally(s.calls, SentAfterEmpty)
    ensures Tally(s.calls, RejectedAfterEviction) <= Tally(s.calls, SentDirectly) + Tally(s.calls, SentAfterEmpty)
  {
    ReachableInv(cfg, s);
    EvictedSplit(s.calls);
    SentSplit(s.calls, s.closed);
  }
}
