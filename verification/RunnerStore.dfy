/** The store against the one obtained by upserting every delivered event
    exactly once: equal, cell by cell, except where a committing write lost the
    last writer of the cell. */
module RunnerStore {
  import opened Domain
  import opened Storage
  import opened Processor
  import opened RunnerCore
  import opened RunnerModel
  import opened RunnerSafety
  import opened RunnerTheorems

  /** Cells whose last writer was lost by a committing write and not rewritten
      by a later one. */
  function Suspect(batches: seq<Batch>): set<Cell> {
    if batches == [] then {}
    else
      var b := batches[|batches| - 1];
      (Suspect(batches[..|batches| - 1]) - CellsOf(Points(b.items))) + Lost(Points(b.items), b.outs)
  }

  /** Every batch this process committed was written whole. */
  ghost predicate WholeCommits(s: State) {
    forall b :: b in s.h.batches ==> AllLand(|b.items|, b.outs)
  }

  lemma FlushWhole(s: State, io: Io)
    requires s.h.whole ==> WholeCommits(s)
    ensures DoFlush(s, io).h.whole ==> WholeCommits(DoFlush(s, io))
  {
    var s' := DoFlush(s, io);
    assert s'.h.batches == s.h.batches || s'.h.batches == s.h.batches + [Batch(s.core.buf, io.outs)];
  }

  lemma WholeStep(env: Env, s: State, step: Step)
    requires (s.h.whole ==> WholeCommits(s)) && Enabled(env, s, step)
    ensures Next(env, s, step).h.whole ==> WholeCommits(Next(env, s, step))
  {
    match step {
      case TickFlush(io) => FlushWhole(s, io);
      case FinalFlush(io) => FlushWhole(s, io);
      case TakeOutcome(io) =>
        var popped := s.(outcomes := s.outcomes[1..]);
        match s.outcomes[0] {
          case FetchFailed => FlushWhole(popped, io);
          case Fetched(m) =>
            match env.decode(m.value)
            case None =>
            case Some(e) => FlushWhole(DoAppend(popped, m, e), io);
        }
      case _ =>
    }
  }

  lemma {:induction false} WholePath(env: Env, a: State, steps: seq<Step>, b: State)
    requires (a.h.whole ==> WholeCommits(a)) && Path(env, a, steps, b)
    ensures b.h.whole ==> WholeCommits(b)
    decreases |steps|
  {
    if steps != [] {
      WholeStep(env, a, steps[0]);
      WholePath(env, Next(env, a, steps[0]), steps[1..], b);
    }
  }

  /** Batch k is the last one that touches the cell, and lost it. */
  ghost predicate LostLast(batches: seq<Batch>, c: Cell, k: nat) {
    k < |batches| && c in Lost(Points(batches[k].items), batches[k].outs)
    && forall l :: k < l < |batches| ==> c !in CellsOf(Points(batches[l].items))
  }

  lemma LostLastSnoc(batches: seq<Batch>, b: Batch, c: Cell, k: nat)
    ensures LostLast(batches + [b], c, k)
            <==> if k == |batches| then c in Lost(Points(b.items), b.outs)
                 else LostLast(batches, c, k) && c !in CellsOf(Points(b.items))
  {
    var all := batches + [b];
    assert all[|batches|] == b && forall l :: 0 <= l < |batches| ==> all[l] == batches[l];
  }

  /** A cell is suspect exactly if the last batch that touches it lost it. */
  lemma {:induction false} SuspectIff(batches: seq<Batch>, c: Cell)
    ensures c in Suspect(batches) <==> exists k :: LostLast(batches, c, k)
  {
    if batches != [] {
      var n := |batches| - 1;
      var rest, b := batches[..n], batches[n];
      assert batches == rest + [b];
      SuspectIff(rest, c);
      LostTouches(Points(b.items), b.outs, c);
      LostLastSnoc(rest, b, c, n);
      if c in Suspect(rest) {
        var k :| LostLast(rest, c, k);
        LostLastSnoc(rest, b, c, k);
      }
      if k :| LostLast(batches, c, k) {
        LostLastSnoc(rest, b, c, k);
      }
    }
  }

  lemma LostTouches(pts: seq<MetricPoint>, outs: seq<PointOutcome>, c: Cell)
    ensures c in Lost(pts, outs) ==> c in CellsOf(pts)
  {
    LandAt(map[], pts, outs, c);
  }

  ghost predicate StoreInv(s: State) {
    forall c :: c !in Suspect(s.h.batches) && LastWrite(Points(s.core.buf), c).None? ==>
                  At(s.core.store, c) == At(Apply(s.h.base, Points(Delivered(s.h.batches))), c)
  }

  lemma PointsConcat(a: seq<Item>, b: seq<Item>)
    ensures Points(a + b) == Points(a) + Points(b)
  {
  }

  lemma FlushKeepsStore(s: State, io: Io)
    requires StoreInv(s)
    ensures StoreInv(DoFlush(s, io))
  {
    var s' := DoFlush(s, io);
    var pts := Points(s.core.buf);
    var done := Points(Delivered(s.h.batches));
    forall c | c !in Suspect(s'.h.batches) && LastWrite(Points(s'.core.buf), c).None?
      ensures At(s'.core.store, c) == At(Apply(s'.h.base, Points(Delivered(s'.h.batches))), c)
    {
      match FlushVerdict(s.core, io)
      case NothingToFlush =>
      case WriteError => LandFrame(s.core.store, pts, io.outs, c);
      case CommitError => LandFrame(s.core.store, pts, io.outs, c);
      case Flushed =>
        assert s'.h.batches[..|s'.h.batches| - 1] == s.h.batches;
        PointsConcat(Delivered(s.h.batches), s.core.buf);
        assert Points(Delivered(s'.h.batches)) == done + pts;
        LandAt(s.core.store, pts, io.outs, c);
        LastWriteExists(pts, c);
        LastWriteConcat(done, pts, c);
        ApplyAt(s.core.store, pts, c);
        ApplyAt(s.h.base, done, c);
        ApplyAt(s.h.base, done + pts, c);
    }
  }

  lemma AppendKeepsStore(s: State, m: Message, e: LogEvent)
    requires StoreInv(s)
    ensures StoreInv(DoAppend(s, m, e))
  {
    var s' := DoAppend(s, m, e);
    PointsConcat(s.core.buf, [Item(m, Process(e))]);
    forall c | LastWrite(Points(s'.core.buf), c).None?
      ensures LastWrite(Points(s.core.buf), c).None?
    {
      LastWriteConcat(Points(s.core.buf), Points([Item(m, Process(e))]), c);
    }
  }

  lemma CrashKeepsStore(env: Env, s: State, step: Step)
    requires StoreInv(s) && Enabled(env, s, step) && step.Crash?
    ensures StoreInv(Next(env, s, step))
  {
    var s' := Next(env, s, step);
    var pts := Points(s.core.buf);
    forall c | c !in Suspect(s.h.batches) && LastWrite(pts, c).None?
      ensures At(s'.core.store, c) == At(s.core.store, c)
    {
      LastWritePrefix(pts, step.written, c);
      LandFrame(s.core.store, pts[..step.written], step.outs, c);
    }
  }

  lemma StoreStep(env: Env, s: State, step: Step)
    requires StoreInv(s) && Enabled(env, s, step)
    ensures StoreInv(Next(env, s, step))
  {
    match step {
      case TickFlush(io) => FlushKeepsStore(s, io);
      case FinalFlush(io) => FlushKeepsStore(s, io);
      case TakeOutcome(io) =>
        var popped := s.(outcomes := s.outcomes[1..]);
        match s.outcomes[0] {
          case FetchFailed => FlushKeepsStore(popped, io);
          case Fetched(m) =>
            match env.decode(m.value)
            case None =>
            case Some(e) =>
              AppendKeepsStore(popped, m, e);
              FlushKeepsStore(DoAppend(popped, m, e), io);
        }
      case Crash(_, _) => CrashKeepsStore(env, s, step);
      case _ =>
    }
  }

  lemma {:induction false} PathStore(env: Env, a: State, steps: seq<Step>, b: State)
    requires StoreInv(a) && Path(env, a, steps, b)
    ensures StoreInv(b)
    decreases |steps|
  {
    if steps != [] {
      StoreStep(env, a, steps[0]);
      PathStore(env, Next(env, a, steps[0]), steps[1..], b);
    }
  }

  /** Over any run: away from the cells still buffered, the store differs from
      "each delivered event upserted once, in order" only in suspect cells. */
  lemma StoreAccounting(env: Env, store: Store, s: State, c: Cell)
    requires Reachable(env, store, s)
    ensures c !in Suspect(s.h.batches) && c !in CellsOf(Points(s.core.buf)) ==>
              At(s.core.store, c) == At(Apply(s.h.base, Points(Delivered(s.h.batches))), c)
  {
    var steps :| Path(env, Init(env, store), steps, s);
    PathStore(env, Init(env, store), steps, s);
    LastWriteExists(Points(s.core.buf), c);
  }

  lemma {:induction false} NothingSuspect(batches: seq<Batch>)
    requires forall b :: b in batches ==> AllLand(|b.items|, b.outs)
    ensures Suspect(batches) == {}
  {
    if batches != [] {
      var b := batches[|batches| - 1];
      assert b in batches;
      NothingSuspect(batches[..|batches| - 1]);
      LandAll(map[], Points(b.items), b.outs);
    }
  }

  /** Effectively once: whatever earlier attempts left behind, when the buffer is
      flushed the store is the starting store with the point of each decodable
      message consumed so far upserted exactly once, in order. */
  lemma EffectivelyOnce(env: Env, store: Store, s: State)
    requires Reachable(env, store, s)
    requires WholeCommits(s) && s.core.buf == []
    ensures s.core.store == Apply(s.h.base, Points(ItemsOf(env, s.h.consumed)))
  {
    BatchingIsTransparent(env, store, s);
    assert Delivered(s.h.batches) + s.core.buf == Delivered(s.h.batches);
    NothingSuspect(s.h.batches);
    var ideal := Apply(s.h.base, Points(ItemsOf(env, s.h.consumed)));
    forall c ensures At(s.core.store, c) == At(ideal, c) {
      StoreAccounting(env, store, s, c);
    }
    SameStore(s.core.store, ideal);
  }

  // ---- why whole commits are needed ------------------------------------------

  function TwoMessages(e0: LogEvent, e1: LogEvent): Env {
    Env([[[0], [1]]], (v: Bytes) => if v == [0] then Some(e0) else if v == [1] then Some(e1) else None, 2)
  }

  const FIRST := Message(Pos(0, 0), [0])
  const SECOND := Message(Pos(0, 1), [1])

  function TwoItems(e0: LogEvent, e1: LogEvent): seq<Item> {
    [Item(FIRST, Process(e0)), Item(SECOND, Process(e1))]
  }

  /** The processor reads both messages and the second one fills the batch. */
  lemma TwoBuffered(e0: LogEvent, e1: LogEvent, io: Io) returns (full: State)
    ensures Reachable(TwoMessages(e0, e1), map[], DoFlush(full, io))
    ensures full.core == Core([0], map[], TwoItems(e0, e1))
    ensures full.h.base == map[] && full.h.batches == [] && Waiting(full)
  {
    var env := TwoMessages(e0, e1);
    var s0 := Init(env, map[]);
    assert Path(env, s0, [], s0);
    Round(env, s0, s0, 0, io);
    var s1 := DoAppend(AfterFetch(s0, FIRST), FIRST, e0);
    assert s1 == DoMessage(env, AfterFetch(s0, FIRST), FIRST, io);
    Round(env, s0, s1, 0, io);
    full := DoAppend(AfterFetch(s1, SECOND), SECOND, e1);
    assert DoFlush(full, io) == DoMessage(env, AfterFetch(s1, SECOND), SECOND, io);
  }

  lemma TwoCommitted(items: seq<Item>, o: CommitOutcome)
    requires |items| == 2 && items[0].msg == FIRST && items[1].msg == SECOND && Applies(o, 0)
    ensures Commit([0], Messages(items), o) == [2]
  {
    assert Messages(items) == [FIRST, SECOND];
    assert SECOND in [FIRST, SECOND];
  }

  function Pair(p: MetricPoint, q: MetricPoint): seq<MetricPoint> {
    [p, q]
  }

  /** Batch writes of two points, unfolded. */
  lemma LandPair(s: Store, p: MetricPoint, q: MetricPoint, outs: seq<PointOutcome>)
    ensures Apply(s, Pair(p, q)) == Upsert(Upsert(s, p), q)
    ensures Land(s, Pair(p, q), outs) ==
            var s' := if Lands(OutcomeAt(outs, 0)) then Upsert(s, p) else s;
            if Lands(OutcomeAt(outs, 1)) then Upsert(s', q) else s'
  {
    assert Pair(p, q)[..1] == [p] && [p][..0] == [];
    assert Apply(s, []) == s && Apply(s, [p]) == Upsert(s, p);
    assert Land(s, [], outs) == s;
    assert Land(s, [p], outs) == if Lands(OutcomeAt(outs, 0)) then Upsert(s, p) else s;
  }

  function StatusCell(e: LogEvent): Cell {
    Cell("vsan_api", Process(e).tags, e.timestamp, "status_code")
  }

  lemma StatusCells(e: LogEvent)
    ensures StatusCell(e) in Cells(Process(e))
    ensures Process(e).fields["status_code"] == IntField(e.statusCode)
  {
    assert "status_code" in Process(e).fields;
  }

  const LOSES_FIRST := Io([Failed(External("timeout"), false), Stored], Committed)

  lemma FirstIsLost(e0: LogEvent, e1: LogEvent)
    ensures var pts := Pair(Process(e0), Process(e1));
            Land(map[], pts, LOSES_FIRST.outs) != Apply(map[], pts) <==> !SameKey(e0, e1)
  {
    var p, q, c := Process(e0), Process(e1), StatusCell(e0);
    LandPair(map[], p, q, LOSES_FIRST.outs);
    KeyOfProcess(map[], e0, e1);
    StatusCells(e0);
    if !SameKey(e0, e1) {
      assert c !in Cells(p) * Cells(q);
      UpsertAt(map[], q, c);
      UpsertAt(Upsert(map[], p), q, c);
      UpsertAt(map[], p, c);
    }
  }

  lemma TwoFlushed(e0: LogEvent, e1: LogEvent, full: State)
    requires full.core == Core([0], map[], TwoItems(e0, e1)) && full.h.batches == []
    ensures var s := DoFlush(full, LOSES_FIRST);
            && s.core == Core([2], Land(map[], Points(TwoItems(e0, e1)), LOSES_FIRST.outs), [])
            && Delivered(s.h.batches) == TwoItems(e0, e1)
            && Pos(0, 0) in s.h.accepted
  {
    var items := TwoItems(e0, e1);
    assert OutcomeAt(LOSES_FIRST.outs, 1).Stored?;
    assert FlushVerdict(full.core, LOSES_FIRST) == Flushed;
    TwoCommitted(items, LOSES_FIRST.commit);
    assert items[0] in items && Pos(0, 0) in Positions(items);
    var batches := [Batch(items, LOSES_FIRST.outs)];
    assert batches[..0] == [] && Delivered([]) == [];
    assert Delivered(batches) == items;
  }

  lemma TwoLost(e0: LogEvent, e1: LogEvent, s: State, ideal: seq<Item>)
    requires s.core.store == Land(map[], Points(TwoItems(e0, e1)), LOSES_FIRST.outs)
    requires ideal == TwoItems(e0, e1) && s.h.base == map[]
    ensures s.core.store != Apply(s.h.base, Points(ideal)) <==> !SameKey(e0, e1)
  {
    assert Points(TwoItems(e0, e1)) == Pair(Process(e0), Process(e1));
    FirstIsLost(e0, e1);
  }

  /** A partly failed write is committed: the first event is behind the
      committed offset and its write returned nil, yet it is missing from the
      store, unless the second event replaces it anyway. */
  lemma PartialWriteLoses(e0: LogEvent, e1: LogEvent) returns (s: State)
    ensures Reachable(TwoMessages(e0, e1), map[], s)
    ensures s.core.buf == [] && s.core.watermark == [2] && Pos(0, 0) in s.h.accepted
    ensures s.core.store != Apply(s.h.base, Points(ItemsOf(TwoMessages(e0, e1), s.h.consumed)))
            <==> !SameKey(e0, e1)
  {
    var full := TwoBuffered(e0, e1, LOSES_FIRST);
    s := DoFlush(full, LOSES_FIRST);
    TwoFlushed(e0, e1, full);
    FlushFrame(full, LOSES_FIRST);
    BatchingIsTransparent(TwoMessages(e0, e1), map[], s);
    assert Delivered(s.h.batches) + [] == Delivered(s.h.batches);
    TwoLost(e0, e1, s, ItemsOf(TwoMessages(e0, e1), s.h.consumed));
  }
}
