/** Exactly one fate for every payload, and what the counters mean, in every
    interleaving of calls, workers and shutdown. */
module CollectorFates {
  import opened Domain
  import opened CollectorModel

  // ---- counting --------------------------------------------------------------

  lemma Updated<T>(xs: seq<T>, i: nat, y: T, z: T)
    requires i < |xs|
    ensures multiset(xs[i := y])[z]
         == multiset(xs)[z] - (if xs[i] == z then 1 else 0) + (if y == z then 1 else 0)
  {
  }

  lemma Snoc<T>(xs: seq<T>, y: T, z: T)
    ensures multiset(xs + [y])[z] == multiset(xs)[z] + if y == z then 1 else 0
  {
  }

  lemma Uncons<T>(xs: seq<T>, z: T)
    requires xs != []
    ensures multiset(xs)[z] == multiset(xs[1..])[z] + if xs[0] == z then 1 else 0
  {
    assert xs == [xs[0]] + xs[1..];
  }

  lemma CountTwice<T>(xs: seq<T>, p: nat, q: nat)
    requires q < p < |xs| && xs[p] == xs[q]
    ensures multiset(xs)[xs[p]] >= 2
  {
    assert xs == xs[..p] + [xs[p]] + xs[p + 1..];
    assert xs[q] == xs[..p][q];
    assert multiset(xs[..p])[xs[p]] >= 1;
  }

  // ---- where a job is --------------------------------------------------------

  /** How often a job occurs: queued, in a worker's hands, finished, evicted. */
  function InHand(s: State, j: Job): nat {
    multiset(s.workers)[Parsing(j)] + multiset(s.workers)[Publishing(j)]
  }

  function Occurrences(s: State, j: Job): nat {
    multiset(s.queue)[j] + InHand(s, j) + multiset(Finishers(s.finished))[j] + multiset(Evicted(s))[j]
  }

  /** The send of the job's call succeeded. */
  predicate WasSent(s: State, j: Job) {
    j.call < |s.calls| && j.call < |s.payloads| && s.payloads[j.call] == j.payload
    && (s.calls[j.call].CountIngest? || s.calls[j.call].Accepted?)
  }

  ghost predicate Shape(s: State) {
    |s.calls| == |s.payloads| == |s.mark| == |s.stop|
  }

  /** A job whose send succeeded is in exactly one place, any other job in none. */
  ghost predicate JobOk(s: State, j: Job) {
    && Occurrences(s, j) == (if WasSent(s, j) then 1 else 0)
    && multiset(s.sent)[j] == (if WasSent(s, j) then 1 else 0)
    && multiset(Received(s))[j] == InHand(s, j) + multiset(Finishers(s.finished))[j]
  }

  ghost predicate CallOk(s: State, i: nat)
    requires Shape(s) && i < |s.calls|
  {
    s.payloads[i] == [] <==> s.calls[i].CountEmpty? || s.calls[i].Refused?
  }

  ghost predicate FateInv(s: State) {
    && Shape(s)
    && (forall j :: JobOk(s, j))
    && (forall i: nat :: i < |s.calls| ==> CallOk(s, i))
  }

  /** The parts of a state that JobOk looks at. */
  ghost predicate SameJobs(s: State, s': State) {
    s'.queue == s.queue && s'.workers == s.workers && s'.finished == s.finished
    && s'.departed == s.departed && s'.sent == s.sent
  }

  lemma SameJobOk(s: State, s': State, j: Job)
    requires JobOk(s, j) && SameJobs(s, s') && WasSent(s', j) == WasSent(s, j)
    ensures JobOk(s', j)
  {
  }

  predicate Sent(pc: CallPc) {
    pc.CountIngest? || pc.Accepted?
  }

  predicate ForEmpty(pc: CallPc) {
    pc.CountEmpty? || pc.Refused?
  }

  lemma GotoKeepsFate(s: State, i: nat, s': State)
    requires FateInv(s) && i < |s.calls| && |s'.calls| == |s.calls|
    requires SameJobs(s, s') && Shape(s') && s'.payloads == s.payloads
    requires s'.calls == s.calls[i := s'.calls[i]]
    requires Sent(s.calls[i]) == Sent(s'.calls[i]) && ForEmpty(s.calls[i]) == ForEmpty(s'.calls[i])
    ensures FateInv(s')
  {
    forall j ensures JobOk(s', j) {
      assert JobOk(s, j);
      SameJobOk(s, s', j);
    }
    forall k: nat | k < |s'.calls| ensures CallOk(s', k) {
      assert CallOk(s, k);
    }
  }

  lemma SendJob(s: State, i: nat, route: Route, j: Job)
    requires Shape(s) && i < |s.calls| && !Sent(s.calls[i]) && JobOk(s, j)
    ensures JobOk(Send(s, i, route), j)
  {
    var s' := Send(s, i, route);
    Snoc(s.queue, JobOf(s, i), j);
    Snoc(s.sent, JobOf(s, i), j);
    assert WasSent(s', j) <==> WasSent(s, j) || j == JobOf(s, i);
    assert !WasSent(s, JobOf(s, i));
    assert InHand(s', j) == InHand(s, j);
  }

  lemma SendKeepsFate(s: State, i: nat, route: Route)
    requires FateInv(s) && i < |s.calls| && !Sent(s.calls[i]) && !ForEmpty(s.calls[i])
    ensures FateInv(Send(s, i, route))
  {
    var s' := Send(s, i, route);
    forall j ensures JobOk(s', j) {
      SendJob(s, i, route, j);
    }
    forall k: nat | k < |s'.calls| ensures CallOk(s', k) {
      assert CallOk(s, k);
    }
  }

  /** One job moved from the front of the channel to the evicted ones. */
  lemma EvictMoves(s: State, i: nat, j: Job)
    requires Shape(s) && i < |s.calls| && s.queue != []
    ensures var s' := Evict(s, i);
            Received(s') == Received(s) && InHand(s', j) == InHand(s, j)
            && multiset(s'.queue)[j] + multiset(Evicted(s'))[j] == multiset(s.queue)[j] + multiset(Evicted(s))[j]
  {
    TakenSnoc(s.departed, Departure(s.queue[0], false));
    Uncons(s.queue, j);
    Snoc(Evicted(s), s.queue[0], j);
  }

  lemma EvictJob(s: State, i: nat, j: Job)
    requires Shape(s) && i < |s.calls| && s.calls[i].MiddleSelect? && s.queue != [] && JobOk(s, j)
    ensures JobOk(Evict(s, i), j)
  {
    EvictMoves(s, i, j);
    assert Occurrences(Evict(s, i), j) == Occurrences(s, j);
    assert WasSent(Evict(s, i), j) == WasSent(s, j);
  }

  lemma EvictKeepsFate(s: State, i: nat)
    requires FateInv(s) && i < |s.calls| && s.calls[i].MiddleSelect? && s.queue != []
    ensures FateInv(Evict(s, i))
  {
    var s' := Evict(s, i);
    forall j ensures JobOk(s', j) {
      EvictJob(s, i, j);
    }
    forall k: nat | k < |s'.calls| ensures CallOk(s', k) {
      assert CallOk(s, k);
    }
  }

  lemma BeginKeepsFate(s: State, raw: Bytes)
    requires FateInv(s)
    ensures FateInv(Next(s, Begin(raw)))
  {
    var s' := Next(s, Begin(raw));
    forall j ensures JobOk(s', j) {
      assert JobOk(s, j);
      SameJobOk(s, s', j);
    }
    forall k: nat | k < |s'.calls| ensures CallOk(s', k) {
      assert k < |s.calls| ==> CallOk(s, k);
    }
  }

  lemma ProducerKeepsFate(s: State, i: nat)
    requires FateInv(s) && Enabled(s, Producer(i))
    ensures FateInv(ProducerNext(s, i))
  {
    var s' := ProducerNext(s, i);
    var room := !s.closed && |s.queue| < s.capacity;
    match s.calls[i] {
      case FirstSend =>
        if room { SendKeepsFate(s, i, Direct); } else { GotoKeepsFate(s, i, s'); }
      case MiddleSelect =>
        if s.queue != [] { EvictKeepsFate(s, i); } else { GotoKeepsFate(s, i, s'); }
      case RetrySend(route) =>
        if room { SendKeepsFate(s, i, route); } else { GotoKeepsFate(s, i, s'); }
      case _ => GotoKeepsFate(s, i, s');
    }
  }

  /** How often a worker at `pc` holds the job. */
  function Holds(pc: WorkerPc, j: Job): nat {
    if pc == Parsing(j) || pc == Publishing(j) then 1 else 0
  }

  lemma HandUpdate(s: State, s': State, w: nat, j: Job)
    requires w < |s.workers| && |s'.workers| == |s.workers| && s'.workers == s.workers[w := s'.workers[w]]
    ensures InHand(s', j) == InHand(s, j) - Holds(s.workers[w], j) + Holds(s'.workers[w], j)
    ensures InHand(s, j) >= Holds(s.workers[w], j)
  {
    Updated(s.workers, w, s'.workers[w], Parsing(j));
    Updated(s.workers, w, s'.workers[w], Publishing(j));
    assert s.workers[w] in s.workers;
  }

  /** One job moved from the front of the channel into a worker's hands. */
  lemma ReceiveMoves(s: State, w: nat, ok: bool, j: Job)
    requires Enabled(s, Worker(w, ok)) && s.workers[w].Receiving? && s.queue != []
    ensures var s' := WorkerNext(s, w, ok);
            var front := if s.queue[0] == j then 1 else 0;
            && Evicted(s') == Evicted(s)
            && multiset(Received(s'))[j] == multiset(Received(s))[j] + front
            && InHand(s', j) == InHand(s, j) + front
            && multiset(s'.queue)[j] == multiset(s.queue)[j] - front
  {
    var s' := WorkerNext(s, w, ok);
    HandUpdate(s, s', w, j);
    TakenSnoc(s.departed, Departure(s.queue[0], true));
    Uncons(s.queue, j);
    Snoc(Received(s), s.queue[0], j);
  }

  lemma ReceiveJob(s: State, w: nat, ok: bool, j: Job)
    requires Enabled(s, Worker(w, ok)) && s.workers[w].Receiving? && s.queue != [] && JobOk(s, j)
    ensures JobOk(WorkerNext(s, w, ok), j)
  {
    ReceiveMoves(s, w, ok, j);
    assert Occurrences(WorkerNext(s, w, ok), j) == Occurrences(s, j);
    assert WasSent(WorkerNext(s, w, ok), j) == WasSent(s, j);
  }

  /** What a step of a worker that is not receiving does. */
  ghost predicate Handling(s: State, s': State, w: nat) {
    && w < |s.workers| && |s'.workers| == |s.workers| && s'.workers == s.workers[w := s'.workers[w]]
    && s'.queue == s.queue && s'.departed == s.departed && s'.sent == s.sent
    && s'.calls == s.calls && s'.payloads == s.payloads
    && (if s'.finished == s.finished
        then forall j :: Holds(s'.workers[w], j) == Holds(s.workers[w], j)
        else
          |s'.finished| == |s.finished| + 1
          && var f := s'.finished[|s.finished|];
             s'.finished == s.finished + [f]
             && forall j :: Holds(s.workers[w], j) == (if j == f.job then 1 else 0) && Holds(s'.workers[w], j) == 0)
  }

  lemma EndHandles(s: State, w: nat, j: Job, v: Verdict)
    requires w < |s.workers| && (s.workers[w] == Parsing(j) || s.workers[w] == Publishing(j))
    ensures Handling(s, End(s, w, j, v), w)
  {
  }

  lemma MoveHandles(s: State, w: nat, pc: WorkerPc, c: Counters)
    requires w < |s.workers| && forall j :: Holds(pc, j) == Holds(s.workers[w], j)
    ensures Handling(s, Move(s, w, pc).(counters := c), w)
  {
  }

  lemma WorkerHandles(s: State, w: nat, ok: bool)
    requires Enabled(s, Worker(w, ok)) && !s.workers[w].Receiving?
    ensures Handling(s, WorkerNext(s, w, ok), w)
  {
    var pc := s.workers[w];
    match pc
    case Parsing(j) =>
      EndHandles(s, w, j, ParseFailed);
      MoveHandles(s, w, Publishing(j), s.counters);
    case Publishing(j) => EndHandles(s, w, j, if ok then Published else PublishFailed);
    case _ => MoveHandles(s, w, Receiving, WorkerCount(pc, s.counters));
  }

  /** One job moved from a worker's hands to the finished ones, or none. */
  lemma FinishMoves(s: State, s': State, w: nat, j: Job)
    requires Handling(s, s', w)
    ensures InHand(s', j) + multiset(Finishers(s'.finished))[j] == InHand(s, j) + multiset(Finishers(s.finished))[j]
  {
    HandUpdate(s, s', w, j);
    if s'.finished != s.finished {
      var f := s'.finished[|s.finished|];
      assert Finishers(s'.finished) == Finishers(s.finished) + [f.job];
      Snoc(Finishers(s.finished), f.job, j);
    }
  }

  lemma FinishJob(s: State, s': State, w: nat, j: Job)
    requires Handling(s, s', w) && JobOk(s, j)
    ensures JobOk(s', j)
  {
    FinishMoves(s, s', w, j);
    assert WasSent(s', j) == WasSent(s, j);
  }

  lemma ExitJob(s: State, w: nat, ok: bool, j: Job)
    requires Enabled(s, Worker(w, ok)) && s.workers[w].Receiving? && s.queue == [] && JobOk(s, j)
    ensures JobOk(WorkerNext(s, w, ok), j)
  {
    var s' := WorkerNext(s, w, ok);
    HandUpdate(s, s', w, j);
    assert WasSent(s', j) == WasSent(s, j);
  }

  lemma WorkerKeepsFate(s: State, w: nat, ok: bool)
    requires FateInv(s) && Enabled(s, Worker(w, ok))
    ensures FateInv(WorkerNext(s, w, ok))
  {
    var s' := WorkerNext(s, w, ok);
    if !s.workers[w].Receiving? {
      WorkerHandles(s, w, ok);
    }
    forall j ensures JobOk(s', j) {
      assert JobOk(s, j);
      if !s.workers[w].Receiving? {
        FinishJob(s, s', w, j);
      } else if s.queue != [] {
        ReceiveJob(s, w, ok, j);
      } else {
        ExitJob(s, w, ok, j);
      }
    }
    forall k: nat | k < |s'.calls| ensures CallOk(s', k) {
      assert CallOk(s, k);
    }
  }

  lemma ShutdownKeepsFate(s: State, s': State)
    requires FateInv(s) && s' == s.(shutdown := s'.shutdown, closed := s'.closed)
    ensures FateInv(s')
  {
    forall j ensures JobOk(s', j) {
      assert JobOk(s, j);
      SameJobOk(s, s', j);
    }
    forall k: nat | k < |s'.calls| ensures CallOk(s', k) {
      assert CallOk(s, k);
    }
  }

  lemma FateStep(s: State, step: Step)
    requires FateInv(s) && Enabled(s, step)
    ensures FateInv(Next(s, step))
  {
    match step {
      case Begin(raw) => BeginKeepsFate(s, raw);
      case Producer(i) => ProducerKeepsFate(s, i);
      case Worker(w, ok) => WorkerKeepsFate(s, w, ok);
      case _ => ShutdownKeepsFate(s, Next(s, step));
    }
  }
}
