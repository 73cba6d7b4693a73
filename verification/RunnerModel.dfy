/** The processor as a state machine: the fetch goroutine with its 8-slot
    channel, the main loop, crashes and restarts. The main loop's effect is
    RunnerCore.Turn; everything in `History` only observes. */
module RunnerModel {
  import opened Domain
  import opened Storage
  import opened RunnerCore

  const OUTCOMES_CAP := 8

  /** `topic[p]` is the log of partition p, including what is yet to arrive. */
  datatype Env = Env(topic: seq<seq<Bytes>>, decode: Decoder, batchMax: nat)

  datatype Batch = Batch(items: seq<Item>, outs: seq<PointOutcome>)

  /** `base` and `start` are the store and the offsets this process started
      from; `pos` is where the main loop is in each partition. `accepted`: part
      of a write that returned nil; `landed`: reached the database at least
      once; `poisoned`: undecodable messages committed since the last
      successful flush; `orphans`: in the buffer of a process that ended, below
      the watermark and not accepted. `whole`: so far every batch write that
      returned nil wrote every point; `honest`: no batch commit that reported an
      error was applied. */
  datatype History = History(
    base: Store, start: seq<nat>, pos: seq<nat>,
    fetched: seq<Message>, consumed: seq<Message>, batches: seq<Batch>,
    accepted: set<Pos>, landed: set<Pos>, poisoned: set<Pos>, orphans: set<Pos>,
    failures: nat, whole: bool, honest: bool)

  datatype State = State(
    core: Core,
    next: seq<nat>, held: Option<Outcome>, outcomes: seq<Outcome>, fetching: bool,
    cancelled: bool, running: bool,
    h: History)

  predicate InTopic(env: Env, at: Pos) {
    at.part < |env.topic| && at.off < |env.topic[at.part]|
  }

  predicate Decodable(env: Env, at: Pos) {
    InTopic(env, at) && env.decode(env.topic[at.part][at.off]).Some?
  }

  predicate Undecodable(env: Env, at: Pos) {
    InTopic(env, at) && env.decode(env.topic[at.part][at.off]).None?
  }

  predicate Genuine(env: Env, m: Message) {
    InTopic(env, m.at) && m.value == env.topic[m.at.part][m.at.off]
  }

  function Zeros(n: nat): seq<nat> {
    seq(n, _ => 0)
  }

  function Fresh(env: Env, store: Store, watermark: seq<nat>): State {
    State(Core(watermark, store, []), watermark, None, [], true, false, true,
          History(store, watermark, watermark, [], [], [], {}, {}, {}, {}, 0, true, true))
  }

  function Init(env: Env, store: Store): State {
    Fresh(env, store, Zeros(|env.topic|))
  }

  // ---- what the main loop does, with its bookkeeping -------------------------

  function Positions(buf: seq<Item>): set<Pos> {
    set it | it in buf :: it.msg.at
  }

  function LandedOf(buf: seq<Item>, outs: seq<PointOutcome>): set<Pos> {
    set i | 0 <= i < |buf| && Lands(OutcomeAt(outs, i)) :: buf[i].msg.at
  }

  predicate WritesWhole(c: Core, io: Io) {
    FlushVerdict(c, io) in {CommitError, Flushed} ==> AllLand(|c.buf|, io.outs)
  }

  predicate CommitsHonestly(c: Core, io: Io) {
    FlushVerdict(c, io) == CommitError ==> io.commit.applied == {}
  }

  function RecordFlush(h: History, c: Core, io: Io): History {
    var h' := h.(landed := h.landed + LandedOf(c.buf, io.outs),
                 whole := h.whole && WritesWhole(c, io), honest := h.honest && CommitsHonestly(c, io));
    match FlushVerdict(c, io)
    case NothingToFlush => h
    case WriteError => h'.(failures := h.failures + 1)
    case CommitError => h'.(failures := h.failures + 1, accepted := h.accepted + Positions(c.buf))
    case Flushed => h'.(failures := 0, accepted := h.accepted + Positions(c.buf), poisoned := {},
                        batches := h.batches + [Batch(c.buf, io.outs)])
  }

  function DoFlush(s: State, io: Io): State {
    s.(core := Flush(s.core, io), h := RecordFlush(s.h, s.core, io))
  }

  function Bump(pos: seq<nat>, m: Message): (r: seq<nat>)
    ensures |r| == |pos|
  {
    if m.at.part < |pos| then pos[m.at.part := m.at.off + 1] else pos
  }

  function Consume(h: History, m: Message): History {
    h.(pos := Bump(h.pos, m), consumed := h.consumed + [m])
  }

  function DoAppend(s: State, m: Message, e: LogEvent): State {
    s.(core := Append(s.core, m, e), h := Consume(s.h, m))
  }

  function DoPoison(s: State, m: Message, io: Io): State {
    var h := Consume(s.h, m);
    s.(core := s.core.(watermark := Commit(s.core.watermark, [m], io.commit)),
       h := if Applies(io.commit, m.at.part) then h.(poisoned := h.poisoned + {m.at}) else h,
       running := io.commit.Committed?)
  }

  function DoMessage(env: Env, s: State, m: Message, io: Io): State {
    match env.decode(m.value)
    case None => DoPoison(s, m, io)
    case Some(e) =>
      var s' := DoAppend(s, m, e);
      if |s'.core.buf| >= env.batchMax then DoFlush(s', io) else s'
  }

  // A crash may interrupt a batch write after any number of points. The buffer
  // is kept until the restart only for the bookkeeping of `orphans`.

  // ---- steps -----------------------------------------------------------------

  datatype Step =
    | FetchMessage(part: nat)
    | FetchError
    | PushOutcome
    | StopFetcher
    | Cancel
    | TickFlush(io: Io)
    | TakeOutcome(io: Io)
    | FinalFlush(io: Io)
    | Crash(written: nat, outs: seq<PointOutcome>)
    | Restart

  predicate Enabled(env: Env, s: State, step: Step) {
    match step
    case FetchMessage(p) =>
      s.fetching && s.held.None? && p < |s.next| && p < |env.topic| && s.next[p] < |env.topic[p]|
    case FetchError => s.fetching && s.held.None?
    case PushOutcome => s.fetching && s.held.Some? && |s.outcomes| < OUTCOMES_CAP
    case StopFetcher => s.fetching && s.cancelled
    case Cancel => true
    case TickFlush(_) => s.running
    case TakeOutcome(_) => s.running && s.outcomes != []
    case FinalFlush(_) => s.running && s.cancelled
    case Crash(written, _) => s.running && written <= |s.core.buf|
    case Restart => !s.running
  }

  /** The main-loop turn a step stands for. */
  function ChoiceOf(s: State, step: Step): Choice
    requires step.TickFlush? || step.FinalFlush? || (step.TakeOutcome? && s.outcomes != [])
  {
    match step
    case TickFlush(io) => Tick(io)
    case FinalFlush(io) => Done(io)
    case TakeOutcome(io) => Take(s.outcomes[0], s.cancelled, io)
  }

  function Next(env: Env, s: State, step: Step): State
    requires Enabled(env, s, step)
  {
    match step
    case FetchMessage(p) =>
      var m := Message(Pos(p, s.next[p]), env.topic[p][s.next[p]]);
      s.(held := Some(Fetched(m)), next := Bump(s.next, m), h := s.h.(fetched := s.h.fetched + [m]))
    case FetchError => s.(held := Some(FetchFailed))
    case PushOutcome => s.(held := None, outcomes := s.outcomes + [s.held.value])
    case StopFetcher => s.(held := None, fetching := false)
    case Cancel => s.(cancelled := true)
    case TickFlush(io) => DoFlush(s, io)
    case FinalFlush(io) => DoFlush(s, io).(running := false)
    case TakeOutcome(io) =>
      var s' := s.(outcomes := s.outcomes[1..]);
      (match s.outcomes[0]
       case FetchFailed => if s.cancelled then DoFlush(s', io).(running := false) else s'
       case Fetched(m) => DoMessage(env, s', m, io))
    case Crash(written, outs) =>
      s.(core := s.core.(store := Land(s.core.store, Points(s.core.buf)[..written], outs)),
         held := None, outcomes := [], fetching := false, running := false,
         h := s.h.(landed := s.h.landed + LandedOf(s.core.buf[..written], outs)))
    case Restart =>
      Fresh(env, s.core.store, s.core.watermark).(
        h := Fresh(env, s.core.store, s.core.watermark).h.(
          accepted := s.h.accepted, landed := s.h.landed,
          orphans := s.h.orphans + Abandoned(s),
          whole := s.h.whole, honest := s.h.honest))
  }

  /** Buffered, below the watermark, and never accepted. */
  function Abandoned(s: State): set<Pos> {
    set it | it in s.core.buf && it.msg.at !in s.h.accepted
             && it.msg.at.part < |s.core.watermark|
             && it.msg.at.off < s.core.watermark[it.msg.at.part] :: it.msg.at
  }

  /** The core a step flushes and the answers the flush meets. */
  datatype Flushing = Flushing(core: Core, io: Io)

  function FlushIn(env: Env, s: State, step: Step): Option<Flushing>
    requires Enabled(env, s, step)
  {
    match step
    case TickFlush(io) => Some(Flushing(s.core, io))
    case FinalFlush(io) => Some(Flushing(s.core, io))
    case TakeOutcome(io) =>
      (match s.outcomes[0]
       case FetchFailed => if s.cancelled then Some(Flushing(s.core, io)) else None
       case Fetched(m) =>
         match env.decode(m.value)
         case None => None
         case Some(e) =>
           var c := Append(s.core, m, e);
           if |c.buf| >= env.batchMax then Some(Flushing(c, io)) else None)
    case _ => None
  }

  ghost predicate Path(env: Env, a: State, steps: seq<Step>, b: State)
    decreases |steps|
  {
    if steps == [] then a == b
    else Enabled(env, a, steps[0]) && Path(env, Next(env, a, steps[0]), steps[1..], b)
  }

  /** The machine's main loop is the code's main loop. */
  lemma LoopStepIsTurn(env: Env, s: State, step: Step)
    requires Enabled(env, s, step)
    requires step.TickFlush? || step.FinalFlush? || step.TakeOutcome?
    ensures Next(env, s, step).core == Turn(env.decode, env.batchMax, s.core, ChoiceOf(s, step))
    ensures Next(env, s, step).running <==> !Exits(env.decode, ChoiceOf(s, step))
  {
  }

  // ---- order in the fetch pipeline -------------------------------------------

  function MessagesOf(os: seq<Outcome>): seq<Message> {
    if os == [] then []
    else (if os[0].Fetched? then [os[0].msg] else []) + MessagesOf(os[1..])
  }

  lemma {:induction false} MessagesOfConcat(a: seq<Outcome>, b: seq<Outcome>)
    ensures MessagesOf(a + b) == MessagesOf(a) + MessagesOf(b)
  {
    if a == [] {
      assert a + b == b;
    } else {
      MessagesOfConcat(a[1..], b);
      assert (a + b)[1..] == a[1..] + b;
    }
  }

  /** Fetched but not yet consumed. */
  function Pipe(s: State): seq<Outcome> {
    s.outcomes + if s.held.Some? then [s.held.value] else []
  }

  /** Each message is the next one of its partition. */
  predicate InOrder(pos: seq<nat>, msgs: seq<Message>)
    decreases |msgs|
  {
    msgs == [] ||
    (msgs[0].at.part < |pos| && msgs[0].at.off == pos[msgs[0].at.part] && InOrder(Bump(pos, msgs[0]), msgs[1..]))
  }

  function After(pos: seq<nat>, msgs: seq<Message>): (r: seq<nat>)
    ensures |r| == |pos|
    decreases |msgs|
  {
    if msgs == [] then pos else After(Bump(pos, msgs[0]), msgs[1..])
  }

  lemma {:induction false} InOrderConcat(pos: seq<nat>, a: seq<Message>, b: seq<Message>)
    ensures InOrder(pos, a + b) <==> InOrder(pos, a) && InOrder(After(pos, a), b)
    ensures After(pos, a + b) == After(After(pos, a), b)
    decreases |a|
  {
    if a == [] {
      assert a + b == b;
    } else {
      InOrderConcat(Bump(pos, a[0]), a[1..], b);
      assert (a + b)[1..] == a[1..] + b;
    }
  }

  /** In-order consumption covers exactly a range of offsets per partition. */
  lemma {:induction false} AfterCovers(pos: seq<nat>, msgs: seq<Message>, at: Pos)
    requires InOrder(pos, msgs)
    ensures at.part < |pos| ==> pos[at.part] <= After(pos, msgs)[at.part]
    ensures (exists m :: m in msgs && m.at == at)
            <==> at.part < |pos| && pos[at.part] <= at.off < After(pos, msgs)[at.part]
    decreases |msgs|
  {
    if msgs != [] {
      AfterCovers(Bump(pos, msgs[0]), msgs[1..], at);
      assert msgs == [msgs[0]] + msgs[1..];
      assert forall m :: m in msgs <==> m == msgs[0] || m in msgs[1..];
    }
  }
}
