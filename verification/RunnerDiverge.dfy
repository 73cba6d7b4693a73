/** Runs built for any topic, and with them the exact conditions under which
    replay converges. */
module RunnerDiverge {
  import opened Domain
  import opened Storage
  import opened Processor
  import opened RunnerCore
  import opened RunnerModel
  import opened RunnerSafety
  import opened RunnerTheorems
  import opened RunnerStore
  import opened RunnerReplay
  import opened RunnerConverge

  // ---- reading a topic partition by partition --------------------------------

  const ALL_WELL := Io([], Committed)

  predicate Plain(io: Io) {
    io == ALL_WELL || io == NO_COMMIT
  }

  ghost predicate Ready(env: Env, store0: Store, s: State) {
    Reachable(env, store0, s) && Waiting(s) && HonestSoFar(s) && s.h.base == store0 && |s.next| == |env.topic|
  }

  lemma PlainFlush(s: State, io: Io)
    requires Plain(io)
    ensures HonestSoFar(s) ==> HonestSoFar(DoFlush(s, io))
    ensures Waiting(s) ==> Waiting(DoFlush(s, io))
    ensures io == NO_COMMIT ==> DoFlush(s, io).core.watermark == s.core.watermark
    ensures io == ALL_WELL ==> DoFlush(s, io).core.buf == []
  {
    assert OutcomeAt([], 0).Stored?;
    FlushHonest(s, io);
    RefusedCommit(s.core.watermark, Messages(s.core.buf));
  }

  lemma ReadOne(env: Env, store0: Store, s: State, p: nat, io: Io) returns (t: State)
    requires EverythingDecodes(env) && Ready(env, store0, s) && Plain(io)
    requires p < |env.topic| && s.next[p] < |env.topic[p]|
    ensures Ready(env, store0, t) && t.next == s.next[p := s.next[p] + 1]
    ensures t.h.consumed == s.h.consumed + [NextMessage(env, s, p)]
    ensures io == NO_COMMIT ==> t.core.watermark == s.core.watermark
  {
    var m := NextMessage(env, s, p);
    Round(env, Init(env, store0), s, p, io);
    assert Decodable(env, m.at);
    var appended := DoAppend(AfterFetch(s, m), m, EventAt(env, m.at));
    PlainFlush(appended, io);
    FlushFrame(appended, io);
    t := DoMessage(env, AfterFetch(s, m), m, io);
  }

  /** Messages lo to hi of a partition. */
  function Part(env: Env, p: nat, lo: nat, hi: nat): (msgs: seq<Message>)
    requires p < |env.topic| && lo <= hi <= |env.topic[p]|
    ensures |msgs| == hi - lo
  {
    seq(hi - lo, i requires 0 <= i < hi - lo => Message(Pos(p, lo + i), env.topic[p][lo + i]))
  }

  lemma {:induction false} ReadPart(env: Env, store0: Store, s: State, p: nat, io: Io) returns (t: State)
    requires EverythingDecodes(env) && Ready(env, store0, s) && Plain(io)
    requires p < |env.topic| && s.next[p] <= |env.topic[p]|
    ensures Ready(env, store0, t) && t.next == s.next[p := |env.topic[p]|]
    ensures t.h.consumed == s.h.consumed + Part(env, p, s.next[p], |env.topic[p]|)
    ensures io == NO_COMMIT ==> t.core.watermark == s.core.watermark
    decreases |env.topic[p]| - s.next[p]
  {
    var n := |env.topic[p]|;
    if s.next[p] == n {
      t := s;
      assert Part(env, p, n, n) == [];
    } else {
      var mid := ReadOne(env, store0, s, p, io);
      t := ReadPart(env, store0, mid, p, io);
      assert Part(env, p, s.next[p], n) == [NextMessage(env, s, p)] + Part(env, p, mid.next[p], n);
    }
  }

  lemma {:induction false} ReadOthers(env: Env, store0: Store, p: nat, k: nat, io: Io) returns (t: State)
    requires EverythingDecodes(env) && Plain(io) && k <= |env.topic|
    ensures Ready(env, store0, t)
    ensures forall q :: 0 <= q < |env.topic| ==> t.next[q] == if q < k && q != p then |env.topic[q]| else 0
    ensures io == NO_COMMIT ==> t.core.watermark == Zeros(|env.topic|)
  {
    if k == 0 {
      t := Init(env, store0);
      assert Path(env, t, [], t);
    } else {
      t := ReadOthers(env, store0, p, k - 1, io);
      if k - 1 != p {
        t := ReadPart(env, store0, t, k - 1, io);
      }
    }
  }

  /** The whole topic read, partition p last. */
  lemma ReadAll(env: Env, store0: Store, p: nat, io: Io) returns (t: State, before: seq<Message>)
    requires EverythingDecodes(env) && Plain(io) && p < |env.topic|
    ensures Ready(env, store0, t)
    ensures forall q :: 0 <= q < |env.topic| ==> t.next[q] == |env.topic[q]|
    ensures t.h.consumed == before + Part(env, p, 0, |env.topic[p]|)
    ensures io == NO_COMMIT ==> t.core.watermark == Zeros(|env.topic|)
  {
    var s := ReadOthers(env, store0, p, |env.topic|, io);
    before := s.h.consumed;
    t := ReadPart(env, store0, s, p, io);
  }

  lemma WaitingPosition(env: Env, store0: Store, s: State)
    requires Ready(env, store0, s)
    ensures s.h.pos == s.next
  {
    ReachableInv(env, store0, s);
    assert Pipe(s) == [] && MessagesOf([]) == [];
  }

  // ---- honest runs: the partition read last has the last word ----------------

  lemma {:induction false} ItemsOfConcat(env: Env, a: seq<Message>, b: seq<Message>)
    ensures ItemsOf(env, a + b) == ItemsOf(env, a) + ItemsOf(env, b)
  {
    if b == [] {
      assert a + b == a;
    } else {
      var n := |b| - 1;
      assert (a + b)[..|a + b| - 1] == a + b[..n];
      ItemsOfConcat(env, a, b[..n]);
    }
  }

  lemma {:induction false} PartIsLog(env: Env, p: nat, n: nat)
    requires EverythingDecodes(env) && p < |env.topic| && n <= |env.topic[p]|
    ensures Points(ItemsOf(env, Part(env, p, 0, n))) == Log(env, p, n)
  {
    if n > 0 {
      PartIsLog(env, p, n - 1);
      var msgs := Part(env, p, 0, n);
      assert msgs[..n - 1] == Part(env, p, 0, n - 1);
      assert Decodable(env, Pos(p, n - 1));
      var item := Item(msgs[n - 1], PointAt(env, Pos(p, n - 1)));
      PointsConcat(ItemsOf(env, msgs[..n - 1]), [item]);
    }
  }

  lemma LastPartitionWins(env: Env, store0: Store, p: nat, before: seq<Message>, c: Cell)
    requires EverythingDecodes(env) && p < |env.topic| && LastWrite(FullLog(env, p), c).Some?
    ensures At(Apply(store0, Points(ItemsOf(env, before + Part(env, p, 0, |env.topic[p]|)))), c)
         == LastWrite(FullLog(env, p), c)
  {
    var msgs := Part(env, p, 0, |env.topic[p]|);
    ItemsOfConcat(env, before, msgs);
    PointsConcat(ItemsOf(env, before), ItemsOf(env, msgs));
    PartIsLog(env, p, |env.topic[p]|);
    LastWriteConcat(Points(ItemsOf(env, before)), Points(ItemsOf(env, msgs)), c);
    ApplyAt(store0, Points(ItemsOf(env, before + msgs)), c);
  }

  lemma FlushedStore(env: Env, store0: Store, s: State)
    requires Reachable(env, store0, s) && s.h.whole && s.core.buf == []
    ensures s.core.store == Apply(s.h.base, Points(ItemsOf(env, s.h.consumed)))
  {
    var steps :| Path(env, Init(env, store0), steps, s);
    WholePath(env, Init(env, store0), steps, s);
    EffectivelyOnce(env, store0, s);
  }

  /** A run without failures that reads partition p last. */
  lemma ReadLast(env: Env, store0: Store, p: nat) returns (s: State)
    requires EverythingDecodes(env) && p < |env.topic|
    ensures HonestEnd(env, store0, s)
    ensures forall c :: LastWrite(FullLog(env, p), c).Some? ==> At(s.core.store, c) == LastWrite(FullLog(env, p), c)
  {
    var t, before := ReadAll(env, store0, p, ALL_WELL);
    WaitingPosition(env, store0, t);
    Extend(env, Init(env, store0), t, TickFlush(ALL_WELL));
    s := DoFlush(t, ALL_WELL);
    PlainFlush(t, ALL_WELL);
    FlushFrame(t, ALL_WELL);
    ReachableTail(env, store0, s);
    FlushedStore(env, store0, s);
    forall c | LastWrite(FullLog(env, p), c).Some? ensures At(s.core.store, c) == LastWrite(FullLog(env, p), c) {
      LastPartitionWins(env, store0, p, before, c);
    }
  }

  ghost predicate HonestRunsConverge(env: Env, store0: Store) {
    forall s, r :: HonestEnd(env, store0, s) && HonestEnd(env, store0, r) ==> s.core.store == r.core.store
  }

  /** When commits are honest, replay converges from any store exactly if the
      partitions that write a cell agree on the value they leave in it. */
  lemma HonestConvergesIff(env: Env, store0: Store)
    requires EverythingDecodes(env)
    ensures HonestRunsConverge(env, store0) <==> LastWritesAgree(env)
  {
    if HonestRunsConverge(env, store0) {
      forall p: nat, q: nat, c | p < |env.topic| && q < |env.topic|
                                 && LastWrite(FullLog(env, p), c).Some? && LastWrite(FullLog(env, q), c).Some?
        ensures LastWrite(FullLog(env, p), c) == LastWrite(FullLog(env, q), c)
      {
        var s := ReadLast(env, store0, p);
        var r := ReadLast(env, store0, q);
      }
    }
    if LastWritesAgree(env) {
      forall s, r | HonestEnd(env, store0, s) && HonestEnd(env, store0, r) ensures s.core.store == r.core.store {
        CrashesConverge(env, store0, s, r);
      }
    }
  }

  // ---- commits applied but reported as failed --------------------------------

  function Partitions(n: nat): (ps: set<nat>)
    ensures forall p: nat :: p in ps <==> p < n
  {
    if n == 0 then {} else Partitions(n - 1) + {n - 1}
  }

  function LateCommit(env: Env): Io {
    Io([], CommitFailed(Partitions(|env.topic|)))
  }

  lemma LateCommitReachesPosition(env: Env, s: State)
    requires EverythingDecodes(env) && TailInv(env, s) && s.core.buf != []
    ensures DoFlush(s, LateCommit(env)).core.watermark == s.h.pos
    ensures DoFlush(s, LateCommit(env)).core.buf == s.core.buf
    ensures DoFlush(s, LateCommit(env)).h.whole == s.h.whole
  {
    assert OutcomeAt([], 0).Stored?;
    assert FlushVerdict(s.core, LateCommit(env)) == CommitError;
    forall p | 0 <= p < |s.h.pos|
      ensures Commit(s.core.watermark, Messages(s.core.buf), LateCommit(env).commit)[p] == s.h.pos[p]
    {
      TopIsPosition(env, s, p);
    }
  }

  /** Only point i of the batch reaches the store. */
  function OnlyThis(i: nat): seq<PointOutcome> {
    seq(i, _ => Failed(External("timeout"), false))
  }

  lemma {:induction false} NothingLands(s: Store, pts: seq<MetricPoint>, i: nat)
    requires |pts| <= i
    ensures Land(s, pts, OnlyThis(i)) == s
  {
    if pts != [] {
      NothingLands(s, pts[..|pts| - 1], i);
    }
  }

  lemma OnlyThisLands(s: Store, pts: seq<MetricPoint>, i: nat)
    requires i < |pts|
    ensures Land(s, pts[..i + 1], OnlyThis(i)) == Upsert(s, pts[i])
  {
    assert pts[..i + 1][..i] == pts[..i];
    NothingLands(s, pts[..i], i);
  }

  /** The process dies while it rewrites the batch, with only point i rewritten,
      and starts again. */
  lemma DiesRewriting(env: Env, store0: Store, s: State, i: nat) returns (r: State)
    requires Reachable(env, store0, s) && s.running && i < |s.core.buf|
    ensures Reachable(env, store0, r) && r.h.whole == s.h.whole
    ensures r.core == Core(s.core.watermark, Upsert(s.core.store, s.core.buf[i].point), [])
  {
    var crash := Crash(i + 1, OnlyThis(i));
    Extend(env, Init(env, store0), s, crash);
    var dead := Next(env, s, crash);
    OnlyThisLands(s.core.store, Points(s.core.buf), i);
    Extend(env, Init(env, store0), dead, Restart);
    r := Next(env, dead, Restart);
  }

  /** For any message of a topic there is a run whose last effect on the store is
      that message: the whole topic is read and written, its commit is applied
      but reported as failed, the batch is kept, and the process dies while it
      rewrites it. The restarted process is caught up. */
  lemma LateCommitDiverges(env: Env, store0: Store, at: Pos) returns (s: State)
    requires EverythingDecodes(env) && Decodable(env, at)
    ensures WholeEnd(env, store0, s) && s.core.buf == []
    ensures forall c :: c in Cells(PointAt(env, at)) ==>
                          At(s.core.store, c) == Some(PointAt(env, at).fields[c.field])
  {
    var t, before := ReadAll(env, store0, at.part, NO_COMMIT);
    WaitingPosition(env, store0, t);
    ReachableTail(env, store0, t);
    ReachableInv(env, store0, t);
    assert at in Positions(t.core.buf);
    var i :| 0 <= i < |t.core.buf| && t.core.buf[i].msg.at == at;
    assert t.core.buf[i] in t.core.buf;
    assert t.core.buf[i].point == PointAt(env, at);
    Extend(env, Init(env, store0), t, TickFlush(LateCommit(env)));
    var written := DoFlush(t, LateCommit(env));
    LateCommitReachesPosition(env, t);
    s := DiesRewriting(env, store0, written, i);
    forall c | c in Cells(PointAt(env, at)) ensures At(s.core.store, c) == Some(PointAt(env, at).fields[c.field]) {
      UpsertAt(written.core.store, PointAt(env, at), c);
    }
  }

  ghost predicate RunsConverge(env: Env, store0: Store) {
    forall s, r :: WholeEnd(env, store0, s) && WholeEnd(env, store0, r) ==> s.core.store == r.core.store
  }

  lemma SamePoint(e: LogEvent, f: LogEvent)
    requires SameKey(e, f)
    requires forall c :: c in Cells(Process(e)) && c in Cells(Process(f)) ==>
                           Process(e).fields[c.field] == Process(f).fields[c.field]
    ensures Process(e) == Process(f)
  {
    ProcessTags(e, f);
    var p, q := Process(e), Process(f);
    var l := Cell("vsan_api", p.tags, e.timestamp, "latency_ms");
    var c := Cell("vsan_api", p.tags, e.timestamp, "status_code");
    CellsOfEvent(e, l);
    CellsOfEvent(f, l);
    CellsOfEvent(e, c);
    CellsOfEvent(f, c);
    assert p.fields["latency_ms"] == q.fields["latency_ms"] && p.fields["status_code"] == q.fields["status_code"];
    assert p.fields == q.fields;
  }

  lemma ConvergenceForbidsConflict(env: Env, store0: Store, at: Pos, bt: Pos)
    requires EverythingDecodes(env) && RunsConverge(env, store0) && Decodable(env, at) && Decodable(env, bt)
    requires SameKey(EventAt(env, at), EventAt(env, bt))
    ensures PointAt(env, at) == PointAt(env, bt)
  {
    var s := LateCommitDiverges(env, store0, at);
    var r := LateCommitDiverges(env, store0, bt);
    assert s.core.store == r.core.store;
    SamePoint(EventAt(env, at), EventAt(env, bt));
  }

  /** When a commit that reports an error may have been applied, replay converges
      from any store exactly if no two events of the topic share their key and
      differ. */
  lemma ConvergesIff(env: Env, store0: Store)
    requires EverythingDecodes(env)
    ensures RunsConverge(env, store0) <==> NoConflict(env)
  {
    if RunsConverge(env, store0) {
      forall at, bt | Decodable(env, at) && Decodable(env, bt) && SameKey(EventAt(env, at), EventAt(env, bt))
        ensures PointAt(env, at) == PointAt(env, bt)
      {
        ConvergenceForbidsConflict(env, store0, at, bt);
      }
    }
    if NoConflict(env) {
      forall s, r | WholeEnd(env, store0, s) && WholeEnd(env, store0, r) ensures s.core.store == r.core.store {
        NoConflictConverges(env, store0, s, r);
      }
    }
  }

  ghost predicate EndsInLog(env: Env, store0: Store)
    requires EverythingDecodes(env) && |env.topic| == 1
  {
    forall s :: WholeEnd(env, store0, s) ==> s.core.store == Apply(store0, FullLog(env, 0))
  }

  lemma OnePartitionEnd(env: Env, store0: Store, s: State)
    requires EverythingDecodes(env) && |env.topic| == 1 && NoConflict(env) && WholeEnd(env, store0, s)
    ensures s.core.store == Apply(store0, FullLog(env, 0))
  {
    var r := ReadLast(env, store0, 0);
    OnePartitionConverges(env, store0, r);
    NoConflictConverges(env, store0, s, r);
  }

  /** With one partition: every such run ends with the log upserted once, in
      order, exactly if no two events share their key and differ. */
  lemma OnePartitionConvergesIff(env: Env, store0: Store)
    requires EverythingDecodes(env) && |env.topic| == 1
    ensures EndsInLog(env, store0) <==> NoConflict(env)
  {
    ConvergesIff(env, store0);
    if NoConflict(env) {
      forall s | WholeEnd(env, store0, s) ensures s.core.store == Apply(store0, FullLog(env, 0)) {
        OnePartitionEnd(env, store0, s);
      }
    }
  }
}
