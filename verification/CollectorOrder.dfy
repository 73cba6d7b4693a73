/** Order: the channel is FIFO in every interleaving, and workers overtake each
    other by at most their number minus one. */
module CollectorOrder {
  import opened Config
  import opened Sequences
  import opened CollectorModel
  import opened CollectorFates
  import opened CollectorCounts

  // ---- projections are subsequences ------------------------------------------

  lemma {:induction false} TakenEmbeds(ds: seq<Departure>, toWorker: bool) returns (f: seq<nat>)
    ensures Embeds(Taken(ds, toWorker), Leaving(ds), f)
  {
    f := [];
    if ds != [] {
      var n := |ds| - 1;
      f := TakenEmbeds(ds[..n], toWorker);
      assert Leaving(ds)[..n] == Leaving(ds[..n]);
      if ds[n].toWorker == toWorker {
        f := f + [n];
      }
    }
  }

  lemma {:induction false} EndedEmbeds(fs: seq<Finish>, v: Verdict) returns (f: seq<nat>)
    ensures Embeds(Ended(fs, v), Finishers(fs), f)
  {
    f := [];
    if fs != [] {
      var n := |fs| - 1;
      f := EndedEmbeds(fs[..n], v);
      assert Finishers(fs)[..n] == Finishers(fs[..n]);
      if fs[n].verdict == v {
        f := f + [n];
      }
    }
  }

  // ---- the channel is FIFO ---------------------------------------------------

  ghost predicate FifoInv(s: State) {
    s.sent == Leaving(s.departed) + s.queue
  }

  /** The job in a worker's hands. */
  function HandOf(pc: WorkerPc): seq<Job> {
    match pc
    case Parsing(j) => [j]
    case Publishing(j) => [j]
    case _ => []
  }

  /** A single worker finishes in the order it receives. */
  ghost predicate SoloInv(s: State) {
    |s.workers| == 1 ==> Received(s) == Finishers(s.finished) + HandOf(s.workers[0])
  }

  lemma FifoMove(s: State, s': State)
    requires FifoInv(s) && ChannelMoves(s, s')
    ensures FifoInv(s')
  {
    if JobDeparted(s, s') {
      TakenSnoc(s.departed, s'.departed[|s.departed|]);
      assert s.queue == [s.queue[0]] + s'.queue;
    }
  }

  lemma FifoStep(s: State, step: Step)
    requires FifoInv(s) && Enabled(s, step)
    ensures FifoInv(Next(s, step))
  {
    match step {
      case Producer(i) =>
        CallMoves(s, i);
        FifoMove(s, ProducerNext(s, i));
      case Worker(w, ok) =>
        WorkerChannel(s, w, ok);
        FifoMove(s, WorkerNext(s, w, ok));
      case _ =>
    }
  }

  lemma SoloReceive(s: State, s': State)
    requires SoloInv(s) && |s.workers| == 1 && s.workers[0].Receiving? && s.queue != []
    requires s'.departed == s.departed + [Departure(s.queue[0], true)]
    requires s'.finished == s.finished && s'.workers == [Parsing(s.queue[0])]
    ensures SoloInv(s')
  {
    TakenSnoc(s.departed, Departure(s.queue[0], true));
    assert Received(s) == Finishers(s.finished);
    assert Received(s') == Received(s) + [s.queue[0]];
  }

  lemma SoloFinish(s: State, s': State, f: Finish)
    requires SoloInv(s) && |s.workers| == 1 && HandOf(s.workers[0]) == [f.job]
    requires s'.departed == s.departed && s'.finished == s.finished + [f]
    requires |s'.workers| == 1 && HandOf(s'.workers[0]) == []
    ensures SoloInv(s')
  {
    EndedSnoc(s.finished, f, f.verdict);
  }

  lemma SoloKeeps(s: State, s': State)
    requires SoloInv(s) && |s.workers| == |s'.workers| == 1 && HandOf(s.workers[0]) == HandOf(s'.workers[0])
    requires s'.departed == s.departed && s'.finished == s.finished
    ensures SoloInv(s')
  {
  }

  lemma SoloWorker(s: State, ok: bool)
    requires SoloInv(s) && |s.workers| == 1 && Enabled(s, Worker(0, ok))
    ensures SoloInv(WorkerNext(s, 0, ok))
  {
    var s' := WorkerNext(s, 0, ok);
    if s'.departed != s.departed {
      SoloReceive(s, s');
    } else if s'.finished != s.finished {
      SoloFinish(s, s', s'.finished[|s.finished|]);
    } else {
      SoloKeeps(s, s');
    }
  }

  lemma SoloStep(s: State, step: Step)
    requires SoloInv(s) && Enabled(s, step)
    ensures SoloInv(Next(s, step))
  {
    match step {
      case Worker(w, ok) =>
        if |s.workers| == 1 {
          SoloWorker(s, ok);
        }
      case Producer(i) => ProducerKeepsReceived(s, i);
      case _ =>
    }
  }

  // ---- overtaking ------------------------------------------------------------

  /** Positions in `received` whose jobs are not among `finished`. */
  function Unfinished(received: seq<Job>, finished: seq<Job>): set<nat> {
    set q | 0 <= q < |received| && received[q] !in finished
  }

  ghost predicate OvertakenOk(s: State, k: nat, p: nat)
    requires k < |s.finished| && p < |Received(s)|
  {
    Received(s)[p] == s.finished[k].job ==>
      |Unfinished(Received(s)[..p], Finishers(s.finished)[..k])| <= |s.workers| - 1
  }

  ghost predicate OvertakeInv(s: State) {
    forall k: nat, p: nat :: k < |s.finished| && p < |Received(s)| ==> OvertakenOk(s, k, p)
  }

  lemma {:induction false} Pigeonhole(qs: set<nat>, f: map<nat, nat>, n: nat, w: nat)
    requires w < n && f.Keys == qs
    requires forall q :: q in qs ==> f[q] < n && f[q] != w
    requires forall q, r :: q in qs && r in qs && q != r ==> f[q] != f[r]
    ensures |qs| <= n - 1
  {
    InjectiveImage(qs, f);
    SubsetSize(set q | q in qs :: f[q], Others(n, w));
  }

  /** The numbers below n other than w. */
  function Others(n: nat, w: nat): (r: set<nat>)
    ensures forall x: nat :: x in r <==> x < n && x != w
    ensures |r| == if w < n then n - 1 else n
  {
    if n == 0 then {}
    else
      var r := Others(n - 1, w);
      if n - 1 == w then r else r + {n - 1}
  }

  lemma {:induction false} InjectiveImage(qs: set<nat>, f: map<nat, nat>)
    requires f.Keys >= qs
    requires forall q, r :: q in qs && r in qs && q != r ==> f[q] != f[r]
    ensures |set q | q in qs :: f[q]| == |qs|
  {
    if qs != {} {
      var q :| q in qs;
      var rest := qs - {q};
      InjectiveImage(rest, f);
      assert (set r | r in qs :: f[r]) == (set r | r in rest :: f[r]) + {f[q]};
    }
  }

  lemma {:induction false} SubsetSize(a: set<nat>, b: set<nat>)
    requires a <= b
    ensures |a| <= |b|
  {
    if a != {} {
      var x :| x in a;
      SubsetSize(a - {x}, b - {x});
    }
  }

  /** A received job that is not finished is in some worker's hands. */
  lemma Holder(s: State, j: Job) returns (w: nat)
    requires FateInv(s) && j in Received(s) && j !in Finishers(s.finished)
    ensures w < |s.workers| && Holds(s.workers[w], j) == 1
  {
    assert JobOk(s, j);
    assert multiset(Received(s))[j] > 0 && multiset(Finishers(s.finished))[j] == 0;
    if multiset(s.workers)[Parsing(j)] > 0 {
      assert Parsing(j) in s.workers;
      w :| 0 <= w < |s.workers| && s.workers[w] == Parsing(j);
    } else {
      assert Publishing(j) in s.workers;
      w :| 0 <= w < |s.workers| && s.workers[w] == Publishing(j);
    }
  }

  /** Assigns to received, unfinished positions the workers that hold their jobs. */
  lemma {:induction false} Holders(s: State, qs: set<nat>) returns (f: map<nat, nat>)
    requires FateInv(s)
    requires forall q :: q in qs ==> q < |Received(s)| && Received(s)[q] !in Finishers(s.finished)
    ensures f.Keys == qs
    ensures forall q :: q in qs ==> f[q] < |s.workers| && Holds(s.workers[f[q]], Received(s)[q]) == 1
  {
    f := map[];
    if qs != {} {
      var q :| q in qs;
      f := Holders(s, qs - {q});
      assert Received(s)[q] in Received(s);
      var w := Holder(s, Received(s)[q]);
      f := f[q := w];
    }
  }

  /** A job is received once. */
  lemma ReceivedOnce(s: State, p: nat, q: nat)
    requires FateInv(s) && p < |Received(s)| && q < |Received(s)| && p != q
    ensures Received(s)[p] != Received(s)[q]
  {
    var j := Received(s)[p];
    assert JobOk(s, j);
    if Received(s)[q] == j {
      CountTwice(Received(s), if p < q then q else p, if p < q then p else q);
    }
  }

  /** When worker w finishes the job received at p, at most the other workers
      hold unfinished jobs received before it. */
  lemma FinishBound(s: State, w: nat, j: Job, p: nat)
    requires FateInv(s) && w < |s.workers| && Holds(s.workers[w], j) == 1
    requires p < |Received(s)| && Received(s)[p] == j
    ensures |Unfinished(Received(s)[..p], Finishers(s.finished))| <= |s.workers| - 1
  {
    var qs := Unfinished(Received(s)[..p], Finishers(s.finished));
    var f := Holders(s, qs);
    forall q | q in qs ensures f[q] != w {
      ReceivedOnce(s, p, q);
    }
    forall q, r | q in qs && r in qs && q != r ensures f[q] != f[r] {
      ReceivedOnce(s, q, r);
    }
    Pigeonhole(qs, f, |s.workers|, w);
  }

  lemma ReceiveKeepsOvertake(s: State, s': State)
    requires FateInv(s) && OvertakeInv(s) && s.queue != []
    requires s'.departed == s.departed + [Departure(s.queue[0], true)]
    requires s'.finished == s.finished && |s'.workers| == |s.workers|
    ensures OvertakeInv(s')
  {
    var j := s.queue[0];
    TakenSnoc(s.departed, Departure(j, true));
    assert Received(s') == Received(s) + [j];
    forall k: nat, p: nat | k < |s'.finished| && p < |Received(s')| ensures OvertakenOk(s', k, p) {
      if p < |Received(s)| {
        assert OvertakenOk(s, k, p);
        assert Received(s')[..p] == Received(s)[..p];
      } else {
        assert JobOk(s, j) && j in s.queue;
        assert j !in Finishers(s.finished);
        assert Finishers(s.finished)[k] == s.finished[k].job;
      }
    }
  }

  lemma FinishKeepsOvertake(s: State, s': State, w: nat, f: Finish)
    requires FateInv(s) && OvertakeInv(s) && w < |s.workers| && Holds(s.workers[w], f.job) == 1
    requires s'.departed == s.departed && s'.finished == s.finished + [f] && |s'.workers| == |s.workers|
    ensures OvertakeInv(s')
  {
    EndedSnoc(s.finished, f, f.verdict);
    forall k: nat, p: nat | k < |s'.finished| && p < |Received(s')| ensures OvertakenOk(s', k, p) {
      if k < |s.finished| {
        assert OvertakenOk(s, k, p);
        assert Finishers(s'.finished)[..k] == Finishers(s.finished)[..k];
      } else if Received(s)[p] == f.job {
        assert Finishers(s'.finished)[..k] == Finishers(s.finished);
        FinishBound(s, w, f.job, p);
      }
    }
  }

  lemma QuietKeepsOvertake(s: State, s': State)
    requires OvertakeInv(s)
    requires Received(s') == Received(s) && s'.finished == s.finished && |s'.workers| == |s.workers|
    ensures OvertakeInv(s')
  {
    forall k: nat, p: nat | k < |s'.finished| && p < |Received(s')| ensures OvertakenOk(s', k, p) {
      assert OvertakenOk(s, k, p);
    }
  }

  lemma WorkerKeepsOvertake(s: State, w: nat, ok: bool)
    requires FateInv(s) && OvertakeInv(s) && Enabled(s, Worker(w, ok))
    ensures OvertakeInv(WorkerNext(s, w, ok))
  {
    var s' := WorkerNext(s, w, ok);
    if s.workers[w].Receiving? && s.queue != [] {
      ReceiveKeepsOvertake(s, s');
    } else if s'.finished != s.finished {
      FinishKeepsOvertake(s, s', w, s'.finished[|s.finished|]);
    } else {
      QuietKeepsOvertake(s, s');
    }
  }

  lemma ProducerKeepsReceived(s: State, i: nat)
    requires Enabled(s, Producer(i))
    ensures Received(ProducerNext(s, i)) == Received(s)
    ensures ProducerNext(s, i).finished == s.finished && ProducerNext(s, i).workers == s.workers
  {
    ProducerMoves(s, i);
  }

  lemma OvertakeStep(s: State, step: Step)
    requires FateInv(s) && OvertakeInv(s) && Enabled(s, step)
    ensures OvertakeInv(Next(s, step))
  {
    match step {
      case Worker(w, ok) => WorkerKeepsOvertake(s, w, ok);
      case Producer(i) =>
        ProducerKeepsReceived(s, i);
        QuietKeepsOvertake(s, Next(s, step));
      case _ => QuietKeepsOvertake(s, Next(s, step));
    }
  }

  // ---- over runs -------------------------------------------------------------

  lemma {:induction false} PathOrder(a: State, steps: seq<Step>, b: State)
    requires FateInv(a) && FifoInv(a) && SoloInv(a) && OvertakeInv(a) && Path(a, steps, b)
    ensures FateInv(b) && FifoInv(b) && SoloInv(b) && OvertakeInv(b)
    decreases |steps|
  {
    if steps != [] {
      FateStep(a, steps[0]);
      FifoStep(a, steps[0]);
      SoloStep(a, steps[0]);
      OvertakeStep(a, steps[0]);
      PathOrder(Next(a, steps[0]), steps[1..], b);
    }
  }

  lemma ReachableOrder(cfg: BackpressureConfig, s: State)
    requires Reachable(cfg, s)
    ensures FifoInv(s) && SoloInv(s) && OvertakeInv(s)
  {
    var steps :| Path(Init(cfg), steps, s);
    InitInv(cfg);
    PathOrder(Init(cfg), steps, s);
  }

  /** Jobs leave the channel, to a worker or by eviction, in exactly the order
      they were sent. */
  lemma ChannelIsFifo(cfg: BackpressureConfig, s: State)
    requires Reachable(cfg, s)
    ensures s.sent == Leaving(s.departed) + s.queue
    ensures Subsequence(Received(s), s.sent) && Subsequence(Evicted(s), s.sent)
  {
    ReachableOrder(cfg, s);
    PrefixSubsequence(Leaving(s.departed), s.sent);
    var f := TakenEmbeds(s.departed, true);
    var g := TakenEmbeds(s.departed, false);
    SubsequenceTrans(Received(s), Leaving(s.departed), s.sent);
    SubsequenceTrans(Evicted(s), Leaving(s.departed), s.sent);
  }

  /** With one worker, jobs finish in the order received and are published in
      the order sent. */
  lemma OneWorkerInOrder(cfg: BackpressureConfig, s: State)
    requires Reachable(cfg, s) && |s.workers| == 1
    ensures Finishers(s.finished) <= Received(s)
    ensures Subsequence(Ended(s.finished, Published), s.sent)
  {
    ReachableOrder(cfg, s);
    ChannelIsFifo(cfg, s);
    var f := EndedEmbeds(s.finished, Published);
    PrefixSubsequence(Finishers(s.finished), Received(s));
    SubsequenceTrans(Ended(s.finished, Published), Finishers(s.finished), Received(s));
    SubsequenceTrans(Ended(s.finished, Published), Received(s), s.sent);
  }

  /** With W workers, when a job finishes at most W-1 jobs received before it are
      still unfinished. */
  lemma BoundedOvertaking(cfg: BackpressureConfig, s: State, k: nat, p: nat)
    requires Reachable(cfg, s)
    requires k < |s.finished| && p < |Received(s)| && Received(s)[p] == s.finished[k].job
    ensures |Unfinished(Received(s)[..p], Finishers(s.finished)[..k])| <= |s.workers| - 1
  {
    ReachableOrder(cfg, s);
    assert OvertakenOk(s, k, p);
  }
}
