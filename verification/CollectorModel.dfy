/** The collector as a state machine. Every channel operation, counter increment
    and external call of a goroutine is a step of its own, so any number of
    Ingest calls, the workers and Shutdown interleave freely. */
module CollectorModel {
  import opened Domain
  import opened Config

  /** `call` is the number of the Ingest call the job comes from. */
  datatype Job = Job(call: nat, payload: Bytes)

  /** How a call came to its last send: straight from the first select, or from
      the retry after the middle select evicted a job, found the channel empty,
      or received from a closed channel. */
  datatype Route = Direct | AfterEviction | AfterEmpty | AfterClosed

  /** Where an Ingest call is. Count* is about to increment a counter. */
  datatype CallPc =
    | CountEmpty | Refused
    | FirstSend
    | MiddleSelect
    | CountEviction
    | CountClosedReceive
    | RetrySend(route: Route)
    | CountIngest(route: Route) | Accepted(route: Route)
    | CountReject(route: Route) | Saturated(route: Route)
    | Panicked(route: Route)

  datatype WorkerPc =
    | Receiving
    | Parsing(job: Job)
    | Publishing(job: Job)
    | CountParseError | CountPublishError | CountPublished
    | Exited

  datatype ShutdownPc = Serving | Polling | Closing | Waiting | Returned

  /** DropTotal by reason, IngestTotal and PublishedTotal. */
  datatype Counters = Counters(
    empty: nat, full: nat, parseError: nat, publishError: nat, ingested: nat, published: nat)

  datatype Verdict = Published | ParseFailed | PublishFailed

  /** A job leaving the channel, to a worker or by eviction. */
  datatype Departure = Departure(job: Job, toWorker: bool)

  datatype Finish = Finish(job: Job, verdict: Verdict)

  /** `sent`, `departed` and `finished` are histories in order of events; `mark`
      and `stop` hold, per call, |sent| at its middle select and its retry. */
  datatype State = State(
    capacity: nat, evicts: bool,
    queue: seq<Job>, closed: bool,
    payloads: seq<Bytes>, calls: seq<CallPc>, mark: seq<nat>, stop: seq<nat>,
    workers: seq<WorkerPc>, shutdown: ShutdownPc,
    counters: Counters,
    sent: seq<Job>, departed: seq<Departure>, finished: seq<Finish>)

  function Init(cfg: BackpressureConfig): State
    requires cfg.channelCapacity > 0 && cfg.workerCount > 0
  {
    State(cfg.channelCapacity, Evicts(cfg), [], false, [], [], [], [],
          seq(cfg.workerCount, _ => Receiving), Serving, Counters(0, 0, 0, 0, 0, 0), [], [], [])
  }

  datatype Step =
    | Begin(raw: Bytes)
    | Producer(call: nat)
    | Worker(worker: nat, ok: bool)
    | ShutdownStart
    | ShutdownTick
    | ShutdownTimeout
    | ShutdownClose
    | ShutdownReturn

  predicate CallDone(pc: CallPc) {
    pc.Refused? || pc.Accepted? || pc.Saturated? || pc.Panicked?
  }

  predicate AllDone(s: State) {
    forall i :: 0 <= i < |s.calls| ==> CallDone(s.calls[i])
  }

  predicate AllExited(s: State) {
    forall w :: 0 <= w < |s.workers| ==> s.workers[w] == Exited
  }

  predicate Enabled(s: State, step: Step) {
    match step
    case Begin(_) => true
    case Producer(i) => i < |s.calls| && i < |s.payloads| && i < |s.mark| && i < |s.stop| && !CallDone(s.calls[i])
    case Worker(w, _) =>
      w < |s.workers| && !s.workers[w].Exited?
      && (s.workers[w].Receiving? ==> s.queue != [] || s.closed)
    case ShutdownStart => s.shutdown == Serving
    case ShutdownTick => s.shutdown == Polling
    case ShutdownTimeout => s.shutdown == Polling
    case ShutdownClose => s.shutdown == Closing
    case ShutdownReturn => s.shutdown == Waiting && AllExited(s)
  }

  // ---- an Ingest call --------------------------------------------------------

  function Goto(s: State, i: nat, pc: CallPc): State
    requires i < |s.calls|
  {
    s.(calls := s.calls[i := pc])
  }

  function JobOf(s: State, i: nat): Job
    requires i < |s.payloads|
  {
    Job(i, s.payloads[i])
  }

  function Send(s: State, i: nat, route: Route): State
    requires i < |s.calls| && i < |s.payloads|
  {
    Goto(s, i, CountIngest(route)).(queue := s.queue + [JobOf(s, i)], sent := s.sent + [JobOf(s, i)])
  }

  function Evict(s: State, i: nat): State
    requires i < |s.calls| && i < |s.mark| && s.queue != []
  {
    Goto(s, i, CountEviction).(
      queue := s.queue[1..], departed := s.departed + [Departure(s.queue[0], false)],
      mark := s.mark[i := |s.sent|])
  }

  /** Where a call goes once it has counted, and what it counts. */
  function Counted(pc: CallPc): CallPc {
    match pc
    case CountEmpty => Refused
    case CountEviction => RetrySend(AfterEviction)
    case CountClosedReceive => RetrySend(AfterClosed)
    case CountIngest(route) => Accepted(route)
    case CountReject(route) => Saturated(route)
    case _ => pc
  }

  function Count(pc: CallPc, c: Counters): Counters {
    match pc
    case CountEmpty => c.(empty := c.empty + 1)
    case CountIngest(_) => c.(ingested := c.ingested + 1)
    case _ => c.(full := c.full + 1)
  }

  function FirstSendNext(s: State, i: nat): State
    requires i < |s.calls| && i < |s.payloads|
  {
    if !s.closed && |s.queue| < s.capacity then Send(s, i, Direct)
    else Goto(s, i, if s.closed then Panicked(Direct) else if s.evicts then MiddleSelect else CountReject(Direct))
  }

  function MiddleSelectNext(s: State, i: nat): State
    requires i < |s.calls| && i < |s.mark|
  {
    if s.queue != [] then Evict(s, i)
    else Goto(s, i, if s.closed then CountClosedReceive else RetrySend(AfterEmpty)).(mark := s.mark[i := |s.sent|])
  }

  function RetrySendNext(s: State, i: nat, route: Route): State
    requires i < |s.calls| && i < |s.payloads| && i < |s.stop|
  {
    if !s.closed && |s.queue| < s.capacity then Send(s, i, route)
    else Goto(s, i, if s.closed then Panicked(route) else CountReject(route)).(stop := s.stop[i := |s.sent|])
  }

  function ProducerNext(s: State, i: nat): State
    requires Enabled(s, Producer(i))
  {
    match s.calls[i]
    case FirstSend => FirstSendNext(s, i)
    case MiddleSelect => MiddleSelectNext(s, i)
    case RetrySend(route) => RetrySendNext(s, i, route)
    case pc => Goto(s, i, Counted(pc)).(counters := Count(pc, s.counters))
  }

  // ---- a worker --------------------------------------------------------------

  function Move(s: State, w: nat, pc: WorkerPc): State
    requires w < |s.workers|
  {
    s.(workers := s.workers[w := pc])
  }

  function Receive(s: State, w: nat): State
    requires w < |s.workers| && s.queue != []
  {
    Move(s, w, Parsing(s.queue[0])).(
      queue := s.queue[1..], departed := s.departed + [Departure(s.queue[0], true)])
  }

  function End(s: State, w: nat, j: Job, v: Verdict): State
    requires w < |s.workers|
  {
    var pc := match v case Published => CountPublished case ParseFailed => CountParseError
                      case PublishFailed => CountPublishError;
    Move(s, w, pc).(finished := s.finished + [Finish(j, v)])
  }

  function WorkerCount(pc: WorkerPc, c: Counters): Counters {
    match pc
    case CountParseError => c.(parseError := c.parseError + 1)
    case CountPublishError => c.(publishError := c.publishError + 1)
    case _ => c.(published := c.published + 1)
  }

  /** `ok` is the answer of the parser or of the publisher. */
  function WorkerNext(s: State, w: nat, ok: bool): State
    requires Enabled(s, Worker(w, ok))
  {
    match s.workers[w]
    case Receiving => if s.queue != [] then Receive(s, w) else Move(s, w, Exited)
    case Parsing(j) => if ok then Move(s, w, Publishing(j)) else End(s, w, j, ParseFailed)
    case Publishing(j) => End(s, w, j, if ok then Published else PublishFailed)
    case pc => Move(s, w, Receiving).(counters := WorkerCount(pc, s.counters))
  }

  // ---- frames ----------------------------------------------------------------

  /** How a step moves jobs: one sent, one departed from the front, or none. */
  ghost predicate JobSent(s: State, t: State) {
    && !s.closed && |s.queue| < s.capacity
    && |t.sent| == |s.sent| + 1 && t.departed == s.departed
    && t.sent == s.sent + [t.sent[|s.sent|]] && t.queue == s.queue + [t.sent[|s.sent|]]
  }

  ghost predicate JobDeparted(s: State, t: State) {
    && s.queue != [] && t.sent == s.sent && t.queue == s.queue[1..]
    && |t.departed| == |s.departed| + 1 && t.departed == s.departed + [t.departed[|s.departed|]]
    && t.departed[|s.departed|].job == s.queue[0]
  }

  ghost predicate ChannelStill(s: State, t: State) {
    t.sent == s.sent && t.queue == s.queue && t.departed == s.departed
  }

  ghost predicate ChannelMoves(s: State, t: State) {
    JobSent(s, t) || JobDeparted(s, t) || ChannelStill(s, t)
  }

  /** A step of call i touches no other call, no worker and not Shutdown. */
  ghost predicate OnlyCallMoves(s: State, t: State, i: nat) {
    && t.capacity == s.capacity && t.evicts == s.evicts && t.closed == s.closed && t.payloads == s.payloads
    && t.workers == s.workers && t.shutdown == s.shutdown && t.finished == s.finished
    && |t.calls| == |s.calls| && |t.mark| == |s.mark| && |t.stop| == |s.stop|
    && i < |s.calls| && t.calls == s.calls[i := t.calls[i]]
    && (forall k :: 0 <= k < |s.mark| && k != i ==> t.mark[k] == s.mark[k])
    && (forall k :: 0 <= k < |s.stop| && k != i ==> t.stop[k] == s.stop[k])
  }

  lemma FirstSendMoves(s: State, i: nat)
    requires i < |s.calls| && i < |s.payloads|
    ensures OnlyCallMoves(s, FirstSendNext(s, i), i) && ChannelMoves(s, FirstSendNext(s, i))
  {
  }

  lemma MiddleSelectMoves(s: State, i: nat)
    requires i < |s.calls| && i < |s.mark|
    ensures OnlyCallMoves(s, MiddleSelectNext(s, i), i) && ChannelMoves(s, MiddleSelectNext(s, i))
  {
  }

  lemma RetrySendMoves(s: State, i: nat, route: Route)
    requires i < |s.calls| && i < |s.payloads| && i < |s.stop|
    ensures OnlyCallMoves(s, RetrySendNext(s, i, route), i) && ChannelMoves(s, RetrySendNext(s, i, route))
  {
  }

  lemma CountMoves(s: State, i: nat, pc: CallPc, c: Counters)
    requires i < |s.calls|
    ensures var t := Goto(s, i, pc).(counters := c); OnlyCallMoves(s, t, i) && ChannelMoves(s, t)
  {
  }

  lemma CallMoves(s: State, i: nat)
    requires Enabled(s, Producer(i))
    ensures OnlyCallMoves(s, ProducerNext(s, i), i) && ChannelMoves(s, ProducerNext(s, i))
  {
    var pc := s.calls[i];
    match pc
    case FirstSend => FirstSendMoves(s, i);
    case MiddleSelect => MiddleSelectMoves(s, i);
    case RetrySend(route) => RetrySendMoves(s, i, route);
    case _ => CountMoves(s, i, Counted(pc), Count(pc, s.counters));
  }

  /** A step of worker w touches no call, no other worker and not Shutdown. */
  ghost predicate OnlyWorkerMoves(s: State, t: State, w: nat) {
    && t.capacity == s.capacity && t.evicts == s.evicts && t.closed == s.closed && t.payloads == s.payloads
    && t.calls == s.calls && t.mark == s.mark && t.stop == s.stop && t.shutdown == s.shutdown && t.sent == s.sent
    && |t.workers| == |s.workers| && w < |s.workers| && t.workers == s.workers[w := t.workers[w]]
  }

  lemma WorkerOnly(s: State, w: nat, ok: bool)
    requires Enabled(s, Worker(w, ok))
    ensures OnlyWorkerMoves(s, WorkerNext(s, w, ok), w)
  {
  }

  lemma WorkerChannel(s: State, w: nat, ok: bool)
    requires Enabled(s, Worker(w, ok))
    ensures var t := WorkerNext(s, w, ok); JobDeparted(s, t) || ChannelStill(s, t)
  {
  }

  function Next(s: State, step: Step): State
    requires Enabled(s, step)
  {
    match step
    case Begin(raw) =>
      s.(payloads := s.payloads + [raw], calls := s.calls + [if raw == [] then CountEmpty else FirstSend],
         mark := s.mark + [0], stop := s.stop + [0])
    case Producer(i) => ProducerNext(s, i)
    case Worker(w, ok) => WorkerNext(s, w, ok)
    case ShutdownStart => s.(shutdown := Polling)
    case ShutdownTick => if s.queue == [] then s.(shutdown := Closing) else s
    case ShutdownTimeout => s.(shutdown := Closing)
    case ShutdownClose => s.(shutdown := Waiting, closed := true)
    case ShutdownReturn => s.(shutdown := Returned)
  }

  ghost predicate Path(a: State, steps: seq<Step>, b: State)
    decreases |steps|
  {
    if steps == [] then a == b
    else Enabled(a, steps[0]) && Path(Next(a, steps[0]), steps[1..], b)
  }

  ghost predicate Usable(cfg: BackpressureConfig) {
    cfg.channelCapacity > 0 && cfg.workerCount > 0
  }

  ghost predicate Reachable(cfg: BackpressureConfig, s: State) {
    Usable(cfg) && exists steps :: Path(Init(cfg), steps, s)
  }

  lemma {:induction false} PathJoins(a: State, b: State, c: State, xs: seq<Step>, ys: seq<Step>)
    requires Path(a, xs, b) && Path(b, ys, c)
    ensures Path(a, xs + ys, c)
    decreases |xs|
  {
    if xs == [] {
      assert xs + ys == ys;
    } else {
      PathJoins(Next(a, xs[0]), b, c, xs[1..], ys);
      assert (xs + ys)[1..] == xs[1..] + ys;
    }
  }

  lemma OneStep(s: State, step: Step)
    requires Enabled(s, step)
    ensures Path(s, [step], Next(s, step))
  {
    assert [step][1..] == [];
  }

  // ---- projections of the histories ------------------------------------------

  function Taken(ds: seq<Departure>, toWorker: bool): seq<Job> {
    if ds == [] then []
    else
      var n := |ds| - 1;
      Taken(ds[..n], toWorker) + if ds[n].toWorker == toWorker then [ds[n].job] else []
  }

  function Leaving(ds: seq<Departure>): (js: seq<Job>)
    ensures |js| == |ds|
  {
    seq(|ds|, i requires 0 <= i < |ds| => ds[i].job)
  }

  function Received(s: State): seq<Job> {
    Taken(s.departed, true)
  }

  function Evicted(s: State): seq<Job> {
    Taken(s.departed, false)
  }

  function Ended(fs: seq<Finish>, v: Verdict): seq<Job> {
    if fs == [] then []
    else
      var n := |fs| - 1;
      Ended(fs[..n], v) + if fs[n].verdict == v then [fs[n].job] else []
  }

  function Finishers(fs: seq<Finish>): (js: seq<Job>)
    ensures |js| == |fs|
  {
    seq(|fs|, i requires 0 <= i < |fs| => fs[i].job)
  }

  lemma TakenSnoc(ds: seq<Departure>, d: Departure)
    ensures Taken(ds + [d], true) == if d.toWorker then Taken(ds, true) + [d.job] else Taken(ds, true)
    ensures Taken(ds + [d], false) == if d.toWorker then Taken(ds, false) else Taken(ds, false) + [d.job]
    ensures Leaving(ds + [d]) == Leaving(ds) + [d.job]
  {
    assert (ds + [d])[..|ds|] == ds;
  }

  lemma EndedSnoc(fs: seq<Finish>, f: Finish, v: Verdict)
    ensures Ended(fs + [f], v) == if f.verdict == v then Ended(fs, v) + [f.job] else Ended(fs, v)
    ensures Finishers(fs + [f]) == Finishers(fs) + [f.job]
  {
    assert (fs + [f])[..|fs|] == fs;
  }
}
