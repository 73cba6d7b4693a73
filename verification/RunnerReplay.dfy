/** Crash and restart: replaying from the committed offsets.

    Runs here are honest: a write that returned nil wrote every point, and a
    commit that reported an error was not applied. Failed writes may leave any
    subset of their points behind. RunnerConverge drops the second half. */
module RunnerReplay {
  import opened Domain
  import opened Storage
  import opened Processor
  import opened RunnerCore
  import opened RunnerModel
  import opened RunnerSafety

  ghost predicate EverythingDecodes(env: Env) {
    forall at :: InTopic(env, at) ==> Decodable(env, at)
  }

  function EventAt(env: Env, at: Pos): LogEvent
    requires Decodable(env, at)
  {
    env.decode(env.topic[at.part][at.off]).value
  }

  function PointAt(env: Env, at: Pos): MetricPoint
    requires Decodable(env, at)
  {
    Process(EventAt(env, at))
  }

  /** The first n points of partition p. */
  function Log(env: Env, p: nat, n: nat): (pts: seq<MetricPoint>)
    requires p < |env.topic| && n <= |env.topic[p]|
    requires forall off :: 0 <= off < n ==> Decodable(env, Pos(p, off))
    ensures |pts| == n
    ensures forall off :: 0 <= off < n ==> pts[off] == PointAt(env, Pos(p, off))
  {
    seq(n, off requires 0 <= off < n => PointAt(env, Pos(p, off)))
  }

  function FullLog(env: Env, p: nat): seq<MetricPoint>
    requires p < |env.topic| && EverythingDecodes(env)
  {
    Log(env, p, |env.topic[p]|)
  }

  /** The partitions that write a cell agree on the value they leave in it. */
  ghost predicate LastWritesAgree(env: Env)
    requires EverythingDecodes(env)
  {
    forall p: nat, q: nat, c :: p < |env.topic| && q < |env.topic|
                                && LastWrite(FullLog(env, p), c).Some? && LastWrite(FullLog(env, q), c).Some? ==>
                                  LastWrite(FullLog(env, p), c) == LastWrite(FullLog(env, q), c)
  }

  /** The points of partition p among the buffered ones, in buffer order. */
  function PartOf(buf: seq<Item>, p: nat): seq<MetricPoint> {
    if buf == [] then []
    else
      var n := |buf| - 1;
      PartOf(buf[..n], p) + if buf[n].msg.at.part == p then [buf[n].point] else []
  }

  // ---- the invariant ---------------------------------------------------------

  /** The buffer holds, per partition, exactly what lies between watermark and
      position. */
  ghost predicate TailInv(env: Env, s: State)
    requires EverythingDecodes(env)
  {
    && |s.core.watermark| == |s.h.pos| == |env.topic|
    && (forall p :: 0 <= p < |s.h.pos| ==> s.core.watermark[p] <= s.h.pos[p] <= |env.topic[p]|)
    && (forall p :: 0 <= p < |s.h.pos| ==>
                      Log(env, p, s.h.pos[p]) == Log(env, p, s.core.watermark[p]) + PartOf(s.core.buf, p))
    && BufferedRange(s.core.buf, s.core.watermark, s.h.pos)
  }

  ghost predicate BufferedRange(buf: seq<Item>, watermark: seq<nat>, pos: seq<nat>)
    requires |watermark| == |pos|
  {
    forall at: Pos :: at in Positions(buf) <==>
                        at.part < |pos| && watermark[at.part] <= at.off < pos[at.part]
  }

  ghost predicate WithinLogs(env: Env, watermark: seq<nat>) {
    |watermark| == |env.topic| && forall p :: 0 <= p < |env.topic| ==> watermark[p] <= |env.topic[p]|
  }

  /** No partition writes the cell beyond its watermark. */
  ghost predicate Settled(env: Env, watermark: seq<nat>, c: Cell)
    requires EverythingDecodes(env) && WithinLogs(env, watermark)
  {
    forall p: nat :: p < |env.topic| ==> LastWrite(FullLog(env, p)[watermark[p]..], c).None?
  }

  /** The cell holds the last write of each partition that writes it; if none
      does, what it held before. */
  ghost predicate Final(env: Env, store0: Store, store: Store, c: Cell)
    requires EverythingDecodes(env)
  {
    && (forall p: nat :: p < |env.topic| && LastWrite(FullLog(env, p), c).Some? ==>
                           At(store, c) == LastWrite(FullLog(env, p), c))
    && ((forall p: nat :: p < |env.topic| ==> LastWrite(FullLog(env, p), c).None?) ==> At(store, c) == At(store0, c))
  }

  ghost predicate CellInv(env: Env, store0: Store, core: Core)
    requires EverythingDecodes(env)
  {
    WithinLogs(env, core.watermark)
    && forall c :: Settled(env, core.watermark, c) ==> Final(env, store0, core.store, c)
  }

  // ---- facts about logs ------------------------------------------------------

  lemma LogSplit(env: Env, p: nat, n: nat)
    requires EverythingDecodes(env) && p < |env.topic| && n <= |env.topic[p]|
    ensures FullLog(env, p)[..n] == Log(env, p, n)
    ensures FullLog(env, p) == Log(env, p, n) + FullLog(env, p)[n..]
  {
  }

  lemma PartOfSnoc(buf: seq<Item>, item: Item, p: nat)
    ensures PartOf(buf + [item], p) == PartOf(buf, p) + if item.msg.at.part == p then [item.point] else []
    ensures Points(buf + [item]) == Points(buf) + [item.point]
  {
    assert (buf + [item])[..|buf|] == buf;
  }

  /** The last point of the buffer that touches a cell is the last one of its
      own partition. */
  lemma {:induction false} LastHasPart(buf: seq<Item>, c: Cell) returns (k: nat)
    requires LastWrite(Points(buf), c).Some?
    ensures k < |buf| && LastWrite(PartOf(buf, buf[k].msg.at.part), c) == LastWrite(Points(buf), c)
  {
    var n := |buf| - 1;
    var rest, last := buf[..n], buf[n];
    assert buf == rest + [last];
    PartOfSnoc(rest, last, last.msg.at.part);
    LastWriteSnoc(Points(rest), last.point, c);
    LastWriteSnoc(PartOf(rest, last.msg.at.part), last.point, c);
    if c in Cells(last.point) {
      k := n;
    } else {
      k := LastHasPart(rest, c);
      var p := buf[k].msg.at.part;
      PartOfSnoc(rest, last, p);
      LastWriteSnoc(PartOf(rest, p), last.point, c);
      assert PartOf(rest, p) + [] == PartOf(rest, p);
    }
  }

  lemma {:induction false} PartMisses(buf: seq<Item>, p: nat, c: Cell)
    requires LastWrite(Points(buf), c).None?
    ensures LastWrite(PartOf(buf, p), c).None?
  {
    if buf != [] {
      var n := |buf| - 1;
      var rest, last := buf[..n], buf[n];
      assert buf == rest + [last];
      PartOfSnoc(rest, last, p);
      LastWriteSnoc(Points(rest), last.point, c);
      PartMisses(rest, p, c);
      LastWriteSnoc(PartOf(rest, p), last.point, c);
      assert PartOf(rest, p) + [] == PartOf(rest, p);
    }
  }

  lemma PointInTail(env: Env, at: Pos, w: nat, c: Cell)
    requires EverythingDecodes(env) && InTopic(env, at) && w <= at.off
    requires c in Cells(PointAt(env, at))
    ensures LastWrite(FullLog(env, at.part)[w..], c).Some?
    ensures LastWrite(FullLog(env, at.part), c).Some?
  {
    var tail := FullLog(env, at.part)[w..];
    assert tail[at.off - w] == PointAt(env, at);
    LastWriteExists(tail, c);
    LogSplit(env, at.part, w);
    LastWriteConcat(Log(env, at.part, w), tail, c);
  }

  /** A buffered point is a point of its partition's log. */
  lemma BufferedInLog(env: Env, s: State, it: Item, c: Cell)
    requires EverythingDecodes(env) && WatermarkInv(env, s) && TailInv(env, s)
    requires it in s.core.buf && c in Cells(it.point)
    ensures var p := it.msg.at.part;
            p < |env.topic| && LastWrite(FullLog(env, p)[s.core.watermark[p]..], c).Some?
  {
    assert it.msg.at in Positions(s.core.buf);
    assert Genuine(env, it.msg) && it.point == PointAt(env, it.msg.at);
    PointInTail(env, it.msg.at, s.core.watermark[it.msg.at.part], c);
  }

  lemma NobodyTouches(buf: seq<Item>, c: Cell)
    requires forall it :: it in buf ==> c !in Cells(it.point)
    ensures LastWrite(Points(buf), c).None?
  {
    LastWriteExists(Points(buf), c);
  }

  /** Nobody in the buffer writes a settled cell. */
  lemma BufferMisses(env: Env, s: State, c: Cell)
    requires EverythingDecodes(env) && WatermarkInv(env, s) && TailInv(env, s)
    requires Settled(env, s.core.watermark, c)
    ensures LastWrite(Points(s.core.buf), c).None?
  {
    forall it | it in s.core.buf ensures c !in Cells(it.point) {
      if c in Cells(it.point) {
        BufferedInLog(env, s, it, c);
      }
    }
    NobodyTouches(s.core.buf, c);
  }

  // ---- the watermark and the buffer ------------------------------------------

  lemma TopIsPosition(env: Env, s: State, p: nat)
    requires EverythingDecodes(env) && TailInv(env, s) && p < |s.h.pos|
    ensures Top(Messages(s.core.buf), p) == if s.core.watermark[p] < s.h.pos[p] then s.h.pos[p] else 0
  {
    var msgs := Messages(s.core.buf);
    forall m | m in msgs && m.at.part == p ensures s.core.watermark[p] <= m.at.off < s.h.pos[p] {
      MessagesIn(s.core.buf, m);
      assert m.at in Positions(s.core.buf);
    }
    if s.core.watermark[p] < s.h.pos[p] {
      var last := Pos(p, s.h.pos[p] - 1);
      assert last in Positions(s.core.buf);
      var it :| it in s.core.buf && it.msg.at == last;
      var i :| 0 <= i < |s.core.buf| && s.core.buf[i] == it;
      assert msgs[i] in msgs;
    }
  }

  lemma CommitReachesPosition(env: Env, s: State)
    requires EverythingDecodes(env) && TailInv(env, s)
    ensures Commit(s.core.watermark, Messages(s.core.buf), Committed) == s.h.pos
  {
    forall p | 0 <= p < |s.h.pos|
      ensures Commit(s.core.watermark, Messages(s.core.buf), Committed)[p] == s.h.pos[p]
    {
      TopIsPosition(env, s, p);
    }
  }

  lemma RefusedCommit(watermark: seq<nat>, msgs: seq<Message>)
    ensures Commit(watermark, msgs, CommitFailed({})) == watermark
  {
  }

  predicate HonestFlush(c: Core, io: Io) {
    WritesWhole(c, io) && CommitsHonestly(c, io)
  }

  lemma FlushHonestly(env: Env, s: State, io: Io)
    requires EverythingDecodes(env) && TailInv(env, s) && HonestFlush(s.core, io)
    ensures match FlushVerdict(s.core, io)
            case NothingToFlush => DoFlush(s, io) == s
            case Flushed => DoFlush(s, io).core == Core(s.h.pos, Apply(s.core.store, Points(s.core.buf)), [])
            case _ => DoFlush(s, io).core == s.core.(store := Land(s.core.store, Points(s.core.buf), io.outs))
    ensures DoFlush(s, io).h.pos == s.h.pos
  {
    match FlushVerdict(s.core, io)
    case NothingToFlush =>
    case WriteError =>
    case CommitError => RefusedCommit(s.core.watermark, Messages(s.core.buf));
    case Flushed =>
      CommitReachesPosition(env, s);
      LandAll(s.core.store, Points(s.core.buf), io.outs);
  }

  lemma FlushKeepsTail(env: Env, s: State, io: Io)
    requires EverythingDecodes(env) && TailInv(env, s) && HonestFlush(s.core, io)
    ensures TailInv(env, DoFlush(s, io))
  {
    FlushHonestly(env, s, io);
    var s' := DoFlush(s, io);
    if FlushVerdict(s.core, io) == Flushed {
      assert Positions([]) == {};
    }
  }

  lemma AppendKeepsRange(buf: seq<Item>, watermark: seq<nat>, pos: seq<nat>, m: Message, pt: MetricPoint)
    requires |watermark| == |pos| && BufferedRange(buf, watermark, pos)
    requires m.at.part < |pos| && m.at.off == pos[m.at.part] && watermark[m.at.part] <= m.at.off
    ensures BufferedRange(buf + [Item(m, pt)], watermark, Bump(pos, m))
  {
    var item := Item(m, pt);
    assert forall it :: it in buf + [item] <==> it in buf || it == item;
    assert Positions(buf + [item]) == Positions(buf) + {m.at} by {
      assert item in buf + [item];
    }
  }

  lemma LogGrows(env: Env, p: nat, w: nat, n: nat, part: seq<MetricPoint>)
    requires EverythingDecodes(env) && p < |env.topic| && w <= n < |env.topic[p]|
    requires Log(env, p, n) == Log(env, p, w) + part
    ensures Decodable(env, Pos(p, n))
    ensures Log(env, p, n + 1) == Log(env, p, w) + (part + [PointAt(env, Pos(p, n))])
  {
    assert InTopic(env, Pos(p, n));
    assert Log(env, p, n + 1) == Log(env, p, n) + [PointAt(env, Pos(p, n))];
  }

  lemma AppendExtendsLog(env: Env, s: State, m: Message, e: LogEvent, p: nat)
    requires EverythingDecodes(env) && TailInv(env, s) && IsNext(env, s, m) && env.decode(m.value) == Some(e)
    requires p < |s.h.pos|
    ensures var n := Bump(s.h.pos, m)[p];
            n <= |env.topic[p]|
            && Log(env, p, n) == Log(env, p, s.core.watermark[p]) + PartOf(s.core.buf + [Item(m, Process(e))], p)
  {
    PartOfSnoc(s.core.buf, Item(m, Process(e)), p);
    if p == m.at.part {
      LogGrows(env, p, s.core.watermark[p], s.h.pos[p], PartOf(s.core.buf, p));
      assert m.at == Pos(p, s.h.pos[p]);
    } else {
      assert PartOf(s.core.buf, p) + [] == PartOf(s.core.buf, p);
    }
  }

  lemma AppendKeepsTail(env: Env, s: State, m: Message, e: LogEvent)
    requires EverythingDecodes(env) && TailInv(env, s) && IsNext(env, s, m) && env.decode(m.value) == Some(e)
    ensures TailInv(env, DoAppend(s, m, e))
  {
    var s' := DoAppend(s, m, e);
    AppendKeepsRange(s.core.buf, s.core.watermark, s.h.pos, m, Process(e));
    assert s'.core.buf == s.core.buf + [Item(m, Process(e))] && s'.core.watermark == s.core.watermark;
    assert s'.h.pos == Bump(s.h.pos, m);
    forall p: nat | p < |s.h.pos|
      ensures s'.h.pos[p] <= |env.topic[p]|
              && Log(env, p, s'.h.pos[p]) == Log(env, p, s'.core.watermark[p]) + PartOf(s'.core.buf, p)
    {
      AppendExtendsLog(env, s, m, e, p);
    }
  }

  // ---- the store -------------------------------------------------------------

  /** A write that changes no cell outside the buffer settles nothing anew. */
  lemma UnsettledWrite(env: Env, store0: Store, s: State, core: Core)
    requires EverythingDecodes(env) && WatermarkInv(env, s) && TailInv(env, s) && CellInv(env, store0, s.core)
    requires core == s.core.(store := core.store)
    requires forall c :: LastWrite(Points(s.core.buf), c).None? ==> At(core.store, c) == At(s.core.store, c)
    ensures CellInv(env, store0, core)
  {
    forall c | Settled(env, core.watermark, c) ensures Final(env, store0, core.store, c) {
      BufferMisses(env, s, c);
      assert Final(env, store0, s.core.store, c);
    }
  }

  lemma TailOfTail(env: Env, p: nat, w: nat, n: nat, part: seq<MetricPoint>)
    requires EverythingDecodes(env) && p < |env.topic| && w <= n <= |env.topic[p]|
    requires Log(env, p, n) == Log(env, p, w) + part
    ensures FullLog(env, p)[w..] == part + FullLog(env, p)[n..]
  {
    LogSplit(env, p, n);
    LogSplit(env, p, w);
    var rest := FullLog(env, p)[n..];
    assert Log(env, p, w) + FullLog(env, p)[w..] == Log(env, p, w) + (part + rest);
    assert (Log(env, p, w) + FullLog(env, p)[w..])[w..] == FullLog(env, p)[w..];
    assert (Log(env, p, w) + (part + rest))[w..] == part + rest;
  }

  lemma TailSplit(env: Env, s: State, p: nat, c: Cell)
    requires EverythingDecodes(env) && TailInv(env, s) && p < |env.topic|
    ensures LastWrite(Log(env, p, s.h.pos[p]), c)
         == OrElse(LastWrite(PartOf(s.core.buf, p), c), LastWrite(Log(env, p, s.core.watermark[p]), c))
    ensures LastWrite(FullLog(env, p)[s.core.watermark[p]..], c)
         == OrElse(LastWrite(FullLog(env, p)[s.h.pos[p]..], c), LastWrite(PartOf(s.core.buf, p), c))
  {
    var w, n, part := s.core.watermark[p], s.h.pos[p], PartOf(s.core.buf, p);
    LastWriteConcat(Log(env, p, w), part, c);
    TailOfTail(env, p, w, n, part);
    LastWriteConcat(part, FullLog(env, p)[n..], c);
  }

  lemma OwnLastWrite(env: Env, s: State, p: nat, c: Cell)
    requires EverythingDecodes(env) && TailInv(env, s) && p < |env.topic|
    requires LastWrite(FullLog(env, p)[s.h.pos[p]..], c).None? && LastWrite(PartOf(s.core.buf, p), c).Some?
    ensures LastWrite(FullLog(env, p), c) == LastWrite(PartOf(s.core.buf, p), c)
  {
    LogSplit(env, p, s.h.pos[p]);
    LastWriteConcat(Log(env, p, s.h.pos[p]), FullLog(env, p)[s.h.pos[p]..], c);
    LastWriteConcat(Log(env, p, s.core.watermark[p]), PartOf(s.core.buf, p), c);
  }

  lemma FinalBy(env: Env, store0: Store, store: Store, p: nat, c: Cell)
    requires EverythingDecodes(env) && LastWritesAgree(env) && p < |env.topic|
    requires LastWrite(FullLog(env, p), c).Some? && At(store, c) == LastWrite(FullLog(env, p), c)
    ensures Final(env, store0, store, c)
  {
  }

  /** A cell the buffer writes, settled by committing it. */
  lemma BufferSettles(env: Env, store0: Store, s: State, c: Cell)
    requires EverythingDecodes(env) && LastWritesAgree(env) && WatermarkInv(env, s) && TailInv(env, s)
    requires Settled(env, s.h.pos, c) && LastWrite(Points(s.core.buf), c).Some?
    ensures Final(env, store0, Apply(s.core.store, Points(s.core.buf)), c)
  {
    var k := LastHasPart(s.core.buf, c);
    assert s.core.buf[k] in s.core.buf;
    var p := s.core.buf[k].msg.at.part;
    OwnLastWrite(env, s, p, c);
    ApplyAt(s.core.store, Points(s.core.buf), c);
    FinalBy(env, store0, Apply(s.core.store, Points(s.core.buf)), p, c);
  }

  /** A cell the buffer does not write. */
  lemma BufferPasses(env: Env, store0: Store, s: State, c: Cell)
    requires EverythingDecodes(env) && WatermarkInv(env, s) && TailInv(env, s) && CellInv(env, store0, s.core)
    requires Settled(env, s.h.pos, c) && LastWrite(Points(s.core.buf), c).None?
    ensures Final(env, store0, Apply(s.core.store, Points(s.core.buf)), c)
  {
    forall p: nat | p < |env.topic| ensures LastWrite(FullLog(env, p)[s.core.watermark[p]..], c).None? {
      TailSplit(env, s, p, c);
      PartMisses(s.core.buf, p, c);
    }
    assert Settled(env, s.core.watermark, c);
    ApplyAt(s.core.store, Points(s.core.buf), c);
  }

  lemma FlushKeepsCells(env: Env, store0: Store, s: State, io: Io)
    requires EverythingDecodes(env) && LastWritesAgree(env)
    requires WatermarkInv(env, s) && TailInv(env, s) && CellInv(env, store0, s.core)
    requires HonestFlush(s.core, io)
    ensures CellInv(env, store0, DoFlush(s, io).core)
  {
    FlushHonestly(env, s, io);
    var s' := DoFlush(s, io);
    var pts := Points(s.core.buf);
    match FlushVerdict(s.core, io)
    case NothingToFlush =>
    case Flushed =>
      forall c | Settled(env, s.h.pos, c) ensures Final(env, store0, s'.core.store, c) {
        if LastWrite(pts, c).Some? {
          BufferSettles(env, store0, s, c);
        } else {
          BufferPasses(env, store0, s, c);
        }
      }
    case _ =>
      forall c | LastWrite(pts, c).None? ensures At(s'.core.store, c) == At(s.core.store, c) {
        LandFrame(s.core.store, pts, io.outs, c);
      }
      UnsettledWrite(env, store0, s, s'.core);
  }

  // ---- every honest run ------------------------------------------------------

  predicate HonestSoFar(s: State) {
    s.h.whole && s.h.honest
  }

  lemma FlushHonest(s: State, io: Io)
    ensures HonestSoFar(DoFlush(s, io)) <==> HonestSoFar(s) && HonestFlush(s.core, io)
  {
  }

  lemma CrashKeepsCells(env: Env, store0: Store, s: State, n: nat, outs: seq<PointOutcome>)
    requires EverythingDecodes(env) && WatermarkInv(env, s) && TailInv(env, s) && CellInv(env, store0, s.core)
    requires n <= |s.core.buf|
    ensures CellInv(env, store0, s.core.(store := Land(s.core.store, Points(s.core.buf)[..n], outs)))
  {
    var pts := Points(s.core.buf);
    var store := Land(s.core.store, pts[..n], outs);
    forall c | LastWrite(pts, c).None? ensures At(store, c) == At(s.core.store, c) {
      LastWritePrefix(pts, n, c);
      LandFrame(s.core.store, pts[..n], outs, c);
    }
    UnsettledWrite(env, store0, s, s.core.(store := store));
  }

  lemma TailFrame(env: Env, s: State, s': State)
    requires EverythingDecodes(env) && TailInv(env, s)
    requires s'.core.watermark == s.core.watermark && s'.core.buf == s.core.buf && s'.h.pos == s.h.pos
    ensures TailInv(env, s')
  {
  }

  lemma RestartKeepsTail(env: Env, s: State, s': State)
    requires EverythingDecodes(env) && TailInv(env, s)
    requires s'.core == s.core.(buf := []) && s'.h.pos == s.core.watermark
    ensures TailInv(env, s')
  {
    assert Positions([]) == {};
  }

  lemma MessageKeepsTail(env: Env, s: State, m: Message, io: Io)
    requires EverythingDecodes(env) && TailInv(env, s) && IsNext(env, s, m)
    requires HonestSoFar(DoMessage(env, s, m, io))
    ensures TailInv(env, DoMessage(env, s, m, io))
  {
    assert Decodable(env, m.at);
    var e := env.decode(m.value).value;
    AppendKeepsTail(env, s, m, e);
    if |DoAppend(s, m, e).core.buf| >= env.batchMax {
      FlushHonest(DoAppend(s, m, e), io);
      FlushKeepsTail(env, DoAppend(s, m, e), io);
    }
  }

  lemma FlushKeepsHonestTail(env: Env, s: State, io: Io)
    requires EverythingDecodes(env) && TailInv(env, s) && HonestSoFar(DoFlush(s, io))
    ensures TailInv(env, DoFlush(s, io))
  {
    FlushHonest(s, io);
    FlushKeepsTail(env, s, io);
  }

  lemma TailStep(env: Env, s: State, step: Step)
    requires EverythingDecodes(env) && PipeInv(env, s) && TailInv(env, s)
    requires Enabled(env, s, step) && HonestSoFar(Next(env, s, step))
    ensures TailInv(env, Next(env, s, step))
  {
    var s' := Next(env, s, step);
    match step {
      case TickFlush(io) => FlushKeepsHonestTail(env, s, io);
      case FinalFlush(io) =>
        FlushKeepsHonestTail(env, s, io);
        TailFrame(env, DoFlush(s, io), s');
      case TakeOutcome(io) =>
        var popped := s.(outcomes := s.outcomes[1..]);
        TailFrame(env, s, popped);
        match s.outcomes[0] {
          case Fetched(m) =>
            FrontIsNext(env, s);
            MessageKeepsTail(env, popped, m, io);
          case FetchFailed =>
            if s.cancelled {
              FlushKeepsHonestTail(env, popped, io);
              TailFrame(env, DoFlush(popped, io), s');
            }
        }
      case Restart => RestartKeepsTail(env, s, s');
      case _ => TailFrame(env, s, s');
    }
  }

  lemma MessageKeepsCells(env: Env, store0: Store, s: State, m: Message, io: Io)
    requires EverythingDecodes(env) && LastWritesAgree(env)
    requires WatermarkInv(env, s) && TailInv(env, s) && CellInv(env, store0, s.core) && IsNext(env, s, m)
    requires HonestSoFar(DoMessage(env, s, m, io))
    ensures CellInv(env, store0, DoMessage(env, s, m, io).core)
  {
    assert Decodable(env, m.at);
    var e := env.decode(m.value).value;
    AppendKeepsTail(env, s, m, e);
    AppendKeepsWatermark(env, s, m, e);
    if |DoAppend(s, m, e).core.buf| >= env.batchMax {
      FlushHonest(DoAppend(s, m, e), io);
      FlushKeepsCells(env, store0, DoAppend(s, m, e), io);
    }
  }

  lemma CellStep(env: Env, store0: Store, s: State, step: Step)
    requires EverythingDecodes(env) && LastWritesAgree(env)
    requires Inv(env, s) && TailInv(env, s) && CellInv(env, store0, s.core)
    requires Enabled(env, s, step) && HonestSoFar(Next(env, s, step))
    ensures CellInv(env, store0, Next(env, s, step).core)
  {
    match step {
      case TickFlush(io) =>
        FlushHonest(s, io);
        FlushKeepsCells(env, store0, s, io);
      case FinalFlush(io) =>
        FlushHonest(s, io);
        FlushKeepsCells(env, store0, s, io);
      case TakeOutcome(io) =>
        var popped := s.(outcomes := s.outcomes[1..]);
        TailFrame(env, s, popped);
        LoopFrame(env, s, popped);
        match s.outcomes[0] {
          case Fetched(m) =>
            FrontIsNext(env, s);
            MessageKeepsCells(env, store0, popped, m, io);
          case FetchFailed =>
            if s.cancelled {
              FlushHonest(popped, io);
              FlushKeepsCells(env, store0, popped, io);
            }
        }
      case Crash(n, outs) => CrashKeepsCells(env, store0, s, n, outs);
      case _ =>
    }
  }

  lemma HonestBefore(env: Env, s: State, step: Step)
    requires Enabled(env, s, step) && HonestSoFar(Next(env, s, step))
    ensures HonestSoFar(s)
  {
  }

  lemma {:induction false} TailPath(env: Env, a: State, steps: seq<Step>, b: State)
    requires EverythingDecodes(env) && Inv(env, a) && (HonestSoFar(a) ==> TailInv(env, a)) && Path(env, a, steps, b)
    ensures HonestSoFar(b) ==> TailInv(env, b)
    decreases |steps|
  {
    if steps != [] {
      var a' := Next(env, a, steps[0]);
      PipeStep(env, a, steps[0]);
      LoopStep(env, a, steps[0]);
      if HonestSoFar(a') {
        HonestBefore(env, a, steps[0]);
        TailStep(env, a, steps[0]);
      }
      TailPath(env, a', steps[1..], b);
    }
  }

  ghost predicate ReplayInv(env: Env, store0: Store, s: State)
    requires EverythingDecodes(env)
  {
    Inv(env, s) && (HonestSoFar(s) ==> TailInv(env, s) && CellInv(env, store0, s.core))
  }

  lemma {:induction false} ReplayPath(env: Env, store0: Store, a: State, steps: seq<Step>, b: State)
    requires EverythingDecodes(env) && LastWritesAgree(env) && ReplayInv(env, store0, a) && Path(env, a, steps, b)
    ensures ReplayInv(env, store0, b)
    decreases |steps|
  {
    if steps != [] {
      var a' := Next(env, a, steps[0]);
      PipeStep(env, a, steps[0]);
      LoopStep(env, a, steps[0]);
      if HonestSoFar(a') {
        HonestBefore(env, a, steps[0]);
        TailStep(env, a, steps[0]);
        CellStep(env, store0, a, steps[0]);
      }
      ReplayPath(env, store0, a', steps[1..], b);
    }
  }

  lemma TailInit(env: Env, store0: Store)
    requires EverythingDecodes(env)
    ensures TailInv(env, Init(env, store0))
  {
    assert Positions([]) == {};
  }

  lemma CellInit(env: Env, store0: Store)
    requires EverythingDecodes(env)
    ensures CellInv(env, store0, Init(env, store0).core)
  {
    forall c | Settled(env, Zeros(|env.topic|), c) ensures Final(env, store0, store0, c) {
      forall p: nat | p < |env.topic| ensures LastWrite(FullLog(env, p), c).None? {
        assert FullLog(env, p)[0..] == FullLog(env, p);
      }
    }
  }

  /** Between watermark and position lies exactly what is buffered. */
  lemma ReachableTail(env: Env, store: Store, s: State)
    requires EverythingDecodes(env) && Reachable(env, store, s) && HonestSoFar(s)
    ensures TailInv(env, s)
    ensures s.core.buf == [] ==> s.core.watermark == s.h.pos
  {
    var steps :| Path(env, Init(env, store), steps, s);
    InitInv(env, store);
    TailInit(env, store);
    TailPath(env, Init(env, store), steps, s);
    if s.core.buf == [] {
      forall p | 0 <= p < |s.h.pos| ensures s.core.watermark[p] == s.h.pos[p] {
        assert Pos(p, s.core.watermark[p]) !in Positions(s.core.buf);
      }
    }
  }

  // ---- convergence -----------------------------------------------------------

  ghost predicate CaughtUp(env: Env, s: State) {
    |s.core.watermark| == |env.topic|
    && forall p :: 0 <= p < |env.topic| ==> s.core.watermark[p] == |env.topic[p]|
  }

  /** The end of an honest run over the whole log, with any failures and crashes. */
  ghost predicate HonestEnd(env: Env, store0: Store, s: State) {
    Reachable(env, store0, s) && s.h.whole && s.h.honest && CaughtUp(env, s)
  }

  lemma ReachableCells(env: Env, store0: Store, s: State)
    requires EverythingDecodes(env) && LastWritesAgree(env) && Reachable(env, store0, s) && HonestSoFar(s)
    ensures CellInv(env, store0, s.core)
  {
    var steps :| Path(env, Init(env, store0), steps, s);
    InitInv(env, store0);
    TailInit(env, store0);
    CellInit(env, store0);
    ReplayPath(env, store0, Init(env, store0), steps, s);
  }

  lemma EndSettles(env: Env, watermark: seq<nat>, c: Cell)
    requires EverythingDecodes(env) && WithinLogs(env, watermark)
    requires forall p :: 0 <= p < |env.topic| ==> watermark[p] == |env.topic[p]|
    ensures Settled(env, watermark, c)
  {
    forall p: nat | p < |env.topic| ensures LastWrite(FullLog(env, p)[watermark[p]..], c).None? {
      assert FullLog(env, p)[watermark[p]..] == [];
    }
  }

  /** The value every cell has then: the last write of each partition that writes
      it, or what was there before. */
  lemma CaughtUpCell(env: Env, store0: Store, s: State, c: Cell)
    requires EverythingDecodes(env) && LastWritesAgree(env) && HonestEnd(env, store0, s)
    ensures Final(env, store0, s.core.store, c)
  {
    ReachableCells(env, store0, s);
    EndSettles(env, s.core.watermark, c);
  }

  lemma FinalIsUnique(env: Env, store0: Store, a: Store, b: Store)
    requires EverythingDecodes(env)
    requires forall c :: Final(env, store0, a, c) && Final(env, store0, b, c)
    ensures a == b
  {
    forall c ensures At(a, c) == At(b, c) {
      assert Final(env, store0, a, c) && Final(env, store0, b, c);
      if p: nat :| p < |env.topic| && LastWrite(FullLog(env, p), c).Some? {
      }
    }
    SameStore(a, b);
  }

  /** Any two honest runs over the same log end in the same store. One of them
      may be a run in which nothing ever failed. */
  lemma CrashesConverge(env: Env, store0: Store, s: State, r: State)
    requires EverythingDecodes(env) && LastWritesAgree(env)
    requires HonestEnd(env, store0, s) && HonestEnd(env, store0, r)
    ensures s.core.store == r.core.store
  {
    forall c ensures Final(env, store0, s.core.store, c) && Final(env, store0, r.core.store, c) {
      CaughtUpCell(env, store0, s, c);
      CaughtUpCell(env, store0, r, c);
    }
    FinalIsUnique(env, store0, s.core.store, r.core.store);
  }

  lemma OnePartitionFinal(env: Env, store0: Store, store: Store, c: Cell)
    requires EverythingDecodes(env) && |env.topic| == 1
    ensures Final(env, store0, store, c) <==> At(store, c) == OrElse(LastWrite(FullLog(env, 0), c), At(store0, c))
  {
  }

  lemma OnePartitionAgrees(env: Env)
    requires EverythingDecodes(env) && |env.topic| == 1
    ensures LastWritesAgree(env)
  {
  }

  /** With one partition that store is the log upserted once, in order. */
  lemma OnePartitionConverges(env: Env, store0: Store, s: State)
    requires EverythingDecodes(env) && |env.topic| == 1 && HonestEnd(env, store0, s)
    ensures s.core.store == Apply(store0, FullLog(env, 0))
  {
    OnePartitionAgrees(env);
    forall c ensures At(s.core.store, c) == At(Apply(store0, FullLog(env, 0)), c) {
      CaughtUpCell(env, store0, s, c);
      OnePartitionFinal(env, store0, s.core.store, c);
      ApplyAt(store0, FullLog(env, 0), c);
    }
    SameStore(s.core.store, Apply(store0, FullLog(env, 0)));
  }
}
