/** Exactly when the store converges: what every run leaves behind whose nil
    writes were whole, and runs that show the conditions are needed. */
module RunnerConverge {
  import opened Domain
  import opened Storage
  import opened Processor
  import opened RunnerCore
  import opened RunnerModel
  import opened RunnerSafety
  import opened RunnerTheorems
  import opened RunnerReplay

  // ---- what whole writes leave in the store ----------------------------------

  /** The message at `at` gives the cell the value v. */
  ghost predicate Writes(env: Env, at: Pos, c: Cell, v: FieldValue) {
    Decodable(env, at) && c in Cells(PointAt(env, at)) && PointAt(env, at).fields[c.field] == v
  }

  /** The cell holds a value that some message of the topic gives it. */
  ghost predicate Written(env: Env, store: Store, c: Cell) {
    c in store && exists at :: Writes(env, at, c, store[c])
  }

  ghost predicate FromTopic(env: Env, buf: seq<Item>) {
    forall it :: it in buf ==> Decodable(env, it.msg.at) && it.point == PointAt(env, it.msg.at)
  }

  lemma BufferFromTopic(env: Env, s: State)
    requires WatermarkInv(env, s)
    ensures FromTopic(env, s.core.buf)
  {
  }

  /** A batch write leaves a cell alone or gives it a value of the topic. */
  lemma {:induction false} LandWrites(env: Env, s: Store, buf: seq<Item>, outs: seq<PointOutcome>, c: Cell)
    requires FromTopic(env, buf)
    ensures At(Land(s, Points(buf), outs), c) == At(s, c) || Written(env, Land(s, Points(buf), outs), c)
  {
    if buf != [] {
      var n := |buf| - 1;
      var before := Land(s, Points(buf)[..n], outs);
      assert Points(buf)[..n] == Points(buf[..n]);
      assert buf[n] in buf && forall it :: it in buf[..n] ==> it in buf;
      LandWrites(env, s, buf[..n], outs, c);
      UpsertAt(before, buf[n].point, c);
      if Lands(OutcomeAt(outs, n)) && c in Cells(buf[n].point) {
        assert Writes(env, buf[n].msg.at, c, buf[n].point.fields[c.field]);
      }
    }
  }

  /** A point that lands gives each of its cells a value of the topic. */
  lemma {:induction false} LandedWrites(env: Env, s: Store, buf: seq<Item>, outs: seq<PointOutcome>, i: nat, c: Cell)
    requires FromTopic(env, buf) && i < |buf| && Lands(OutcomeAt(outs, i)) && c in Cells(buf[i].point)
    ensures Written(env, Land(s, Points(buf), outs), c)
  {
    var n := |buf| - 1;
    var before := Land(s, Points(buf)[..n], outs);
    assert Points(buf)[..n] == Points(buf[..n]);
    assert buf[n] in buf && forall it :: it in buf[..n] ==> it in buf;
    UpsertAt(before, buf[n].point, c);
    if Lands(OutcomeAt(outs, n)) && c in Cells(buf[n].point) {
      assert Writes(env, buf[n].msg.at, c, buf[n].point.fields[c.field]);
    } else {
      LandedWrites(env, s, buf[..n], outs, i, c);
    }
  }

  /** Whatever a landed message writes is in the store with a value of the topic;
      any other cell is as it was or holds a value of the topic. */
  ghost predicate HeldInv(env: Env, store0: Store, store: Store, landed: set<Pos>) {
    && (forall c :: At(store, c) == At(store0, c) || Written(env, store, c))
    && (forall at :: at in landed ==> Held(env, store, at))
  }

  ghost predicate Held(env: Env, store: Store, at: Pos) {
    Decodable(env, at) && forall c :: c in Cells(PointAt(env, at)) ==> Written(env, store, c)
  }

  lemma LandedHeld(env: Env, store: Store, buf: seq<Item>, outs: seq<PointOutcome>, at: Pos)
    requires FromTopic(env, buf) && at in LandedOf(buf, outs)
    ensures Held(env, Land(store, Points(buf), outs), at)
  {
    var i :| 0 <= i < |buf| && Lands(OutcomeAt(outs, i)) && buf[i].msg.at == at;
    assert buf[i] in buf;
    forall c | c in Cells(PointAt(env, at)) ensures Written(env, Land(store, Points(buf), outs), c) {
      LandedWrites(env, store, buf, outs, i, c);
    }
  }

  lemma LandKeepsHeld(env: Env, store0: Store, store: Store, landed: set<Pos>, buf: seq<Item>,
                      outs: seq<PointOutcome>)
    requires HeldInv(env, store0, store, landed) && FromTopic(env, buf)
    ensures HeldInv(env, store0, Land(store, Points(buf), outs), landed + LandedOf(buf, outs))
  {
    var store' := Land(store, Points(buf), outs);
    forall c ensures Written(env, store, c) ==> Written(env, store', c)
             ensures At(store', c) == At(store0, c) || Written(env, store', c)
    {
      LandWrites(env, store, buf, outs, c);
    }
    forall at | at in landed + LandedOf(buf, outs) ensures Held(env, store', at) {
      if at in LandedOf(buf, outs) {
        LandedHeld(env, store, buf, outs, at);
      } else {
        assert Held(env, store, at);
      }
    }
  }

  lemma FlushKeepsHeld(env: Env, store0: Store, s: State, io: Io)
    requires WatermarkInv(env, s) && HeldInv(env, store0, s.core.store, s.h.landed)
    ensures HeldInv(env, store0, DoFlush(s, io).core.store, DoFlush(s, io).h.landed)
  {
    BufferFromTopic(env, s);
    LandKeepsHeld(env, store0, s.core.store, s.h.landed, s.core.buf, io.outs);
  }

  lemma CrashKeepsHeld(env: Env, store0: Store, s: State, n: nat, outs: seq<PointOutcome>)
    requires WatermarkInv(env, s) && HeldInv(env, store0, s.core.store, s.h.landed) && n <= |s.core.buf|
    ensures HeldInv(env, store0, Land(s.core.store, Points(s.core.buf)[..n], outs),
                    s.h.landed + LandedOf(s.core.buf[..n], outs))
  {
    BufferFromTopic(env, s);
    assert Points(s.core.buf)[..n] == Points(s.core.buf[..n]);
    LandKeepsHeld(env, store0, s.core.store, s.h.landed, s.core.buf[..n], outs);
  }

  lemma MessageKeepsHeld(env: Env, store0: Store, s: State, m: Message, io: Io)
    requires WatermarkInv(env, s) && IsNext(env, s, m) && HeldInv(env, store0, s.core.store, s.h.landed)
    ensures var s' := DoMessage(env, s, m, io); HeldInv(env, store0, s'.core.store, s'.h.landed)
  {
    match env.decode(m.value)
    case None =>
    case Some(e) =>
      AppendKeepsWatermark(env, s, m, e);
      FlushKeepsHeld(env, store0, DoAppend(s, m, e), io);
  }

  lemma HeldStep(env: Env, store0: Store, s: State, step: Step)
    requires Inv(env, s) && HeldInv(env, store0, s.core.store, s.h.landed) && Enabled(env, s, step)
    ensures var s' := Next(env, s, step); HeldInv(env, store0, s'.core.store, s'.h.landed)
  {
    match step {
      case TickFlush(io) => FlushKeepsHeld(env, store0, s, io);
      case FinalFlush(io) => FlushKeepsHeld(env, store0, s, io);
      case TakeOutcome(io) =>
        var popped := s.(outcomes := s.outcomes[1..]);
        LoopFrame(env, s, popped);
        match s.outcomes[0] {
          case FetchFailed => FlushKeepsHeld(env, store0, popped, io);
          case Fetched(m) =>
            FrontIsNext(env, s);
            MessageKeepsHeld(env, store0, popped, m, io);
        }
      case Crash(n, outs) => CrashKeepsHeld(env, store0, s, n, outs);
      case _ =>
    }
  }

  /** Writes that return nil and are whole land everything they accept. */
  predicate AcceptedLanded(s: State) {
    s.h.whole ==> s.h.accepted <= s.h.landed
  }

  lemma FlushAccepts(s: State, io: Io)
    requires AcceptedLanded(s)
    ensures AcceptedLanded(DoFlush(s, io))
  {
    if WritesWhole(s.core, io) && FlushVerdict(s.core, io) in {CommitError, Flushed} {
      forall at | at in Positions(s.core.buf) ensures at in LandedOf(s.core.buf, io.outs) {
        var i :| 0 <= i < |s.core.buf| && s.core.buf[i].msg.at == at;
        assert Lands(OutcomeAt(io.outs, i));
      }
    }
  }

  lemma AcceptStep(env: Env, s: State, step: Step)
    requires AcceptedLanded(s) && Enabled(env, s, step)
    ensures AcceptedLanded(Next(env, s, step))
  {
    match step {
      case TickFlush(io) => FlushAccepts(s, io);
      case FinalFlush(io) => FlushAccepts(s, io);
      case TakeOutcome(io) =>
        var popped := s.(outcomes := s.outcomes[1..]);
        match s.outcomes[0] {
          case FetchFailed => FlushAccepts(popped, io);
          case Fetched(m) =>
            match env.decode(m.value)
            case None =>
            case Some(e) => FlushAccepts(DoAppend(popped, m, e), io);
        }
      case _ =>
    }
  }

  lemma {:induction false} HeldPath(env: Env, store0: Store, a: State, steps: seq<Step>, b: State)
    requires Inv(env, a) && HeldInv(env, store0, a.core.store, a.h.landed) && AcceptedLanded(a)
    requires Path(env, a, steps, b)
    ensures HeldInv(env, store0, b.core.store, b.h.landed) && AcceptedLanded(b)
    decreases |steps|
  {
    if steps != [] {
      PipeStep(env, a, steps[0]);
      LoopStep(env, a, steps[0]);
      HeldStep(env, store0, a, steps[0]);
      AcceptStep(env, a, steps[0]);
      HeldPath(env, store0, Next(env, a, steps[0]), steps[1..], b);
    }
  }

  /** Whatever fails: a message whose point ever reached the database is in the
      store, in each of its cells, with a value some message of the topic gives
      the cell; and the store holds nothing that neither the topic nor the
      initial store gives it. */
  lemma LandedIsStored(env: Env, store0: Store, s: State, at: Pos, c: Cell)
    requires Reachable(env, store0, s)
    ensures at in s.h.landed ==> Decodable(env, at)
    ensures at in s.h.landed && c in Cells(PointAt(env, at)) ==> Written(env, s.core.store, c)
    ensures At(s.core.store, c) == At(store0, c) || Written(env, s.core.store, c)
  {
    var steps :| Path(env, Init(env, store0), steps, s);
    InitInv(env, store0);
    HeldPath(env, store0, Init(env, store0), steps, s);
    assert at in s.h.landed ==> Held(env, s.core.store, at);
  }

  /** With whole writes every accepted message has reached the database, so it is
      in the store in this sense. */
  lemma AcceptedIsStored(env: Env, store0: Store, s: State, at: Pos, c: Cell)
    requires Reachable(env, store0, s) && s.h.whole
    ensures at in s.h.accepted ==> at in s.h.landed && Decodable(env, at)
    ensures at in s.h.accepted && c in Cells(PointAt(env, at)) ==> Written(env, s.core.store, c)
    ensures At(s.core.store, c) == At(store0, c) || Written(env, s.core.store, c)
  {
    var steps :| Path(env, Init(env, store0), steps, s);
    InitInv(env, store0);
    HeldPath(env, store0, Init(env, store0), steps, s);
    LandedIsStored(env, store0, s, at, c);
  }

  // ---- no two events in conflict ---------------------------------------------

  /** Events of the topic that share their key are the same point. */
  ghost predicate NoConflict(env: Env) {
    forall at, bt :: Decodable(env, at) && Decodable(env, bt) && SameKey(EventAt(env, at), EventAt(env, bt)) ==>
                       PointAt(env, at) == PointAt(env, bt)
  }

  /** The end of a run over the whole log in which writes that returned nil were
      whole; commits that reported an error may have been applied. */
  ghost predicate WholeEnd(env: Env, store0: Store, s: State) {
    Reachable(env, store0, s) && s.h.whole && CaughtUp(env, s)
  }

  lemma WrittenValue(env: Env, store: Store, at: Pos, c: Cell)
    requires NoConflict(env) && Decodable(env, at) && c in Cells(PointAt(env, at)) && Written(env, store, c)
    ensures store[c] == PointAt(env, at).fields[c.field]
  {
    var bt :| Writes(env, bt, c, store[c]);
    SharedCell(EventAt(env, at), EventAt(env, bt), c);
  }

  lemma EndAccepts(env: Env, store0: Store, s: State, at: Pos)
    requires EverythingDecodes(env) && Reachable(env, store0, s) && CaughtUp(env, s) && InTopic(env, at)
    ensures at in s.h.accepted
  {
    forall off | at.off <= off < s.core.watermark[at.part] ensures !Undecodable(env, Pos(at.part, off)) {
      assert InTopic(env, Pos(at.part, off)) ==> Decodable(env, Pos(at.part, off));
    }
    AtLeastOnce(env, store0, s, at);
  }

  /** Without conflicts, a cell ends with the value any of its events gives it,
      or what it held before. */
  lemma EndCell(env: Env, store0: Store, s: State, at: Pos, c: Cell)
    requires EverythingDecodes(env) && NoConflict(env) && WholeEnd(env, store0, s)
    ensures Decodable(env, at) && c in Cells(PointAt(env, at)) ==>
              At(s.core.store, c) == Some(PointAt(env, at).fields[c.field])
    ensures (forall bt :: Decodable(env, bt) ==> c !in Cells(PointAt(env, bt))) ==> At(s.core.store, c) == At(store0, c)
  {
    AcceptedIsStored(env, store0, s, at, c);
    if Decodable(env, at) && c in Cells(PointAt(env, at)) {
      EndAccepts(env, store0, s, at);
      WrittenValue(env, s.core.store, at, c);
    }
  }

  lemma NoConflictConverges(env: Env, store0: Store, s: State, r: State)
    requires EverythingDecodes(env) && NoConflict(env) && WholeEnd(env, store0, s) && WholeEnd(env, store0, r)
    ensures s.core.store == r.core.store
  {
    forall c ensures At(s.core.store, c) == At(r.core.store, c) {
      if at :| Decodable(env, at) && c in Cells(PointAt(env, at)) {
        EndCell(env, store0, s, at, c);
        EndCell(env, store0, r, at, c);
      } else {
        EndCell(env, store0, s, Pos(0, 0), c);
        EndCell(env, store0, r, Pos(0, 0), c);
      }
    }
    SameStore(s.core.store, r.core.store);
  }
}
