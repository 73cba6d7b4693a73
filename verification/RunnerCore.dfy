/** What the processor's main loop does to the committed offsets, the store and
    its batch buffer. Answers of Kafka and of the database are parameters. */
module RunnerCore {
  import opened Domain
  import opened Storage
  import opened Processor

  datatype Pos = Pos(part: nat, off: nat)
  datatype Message = Message(at: Pos, value: Bytes)
  datatype Item = Item(msg: Message, point: MetricPoint)
  datatype Outcome = Fetched(msg: Message) | FetchFailed

  type Decoder = Bytes -> Option<LogEvent>

  /** A commit that reports an error may have been applied on any partitions. */
  datatype CommitOutcome = Committed | CommitFailed(applied: set<nat>)

  predicate Applies(o: CommitOutcome, p: nat) {
    o.Committed? || p in o.applied
  }

  datatype Io = Io(outs: seq<PointOutcome>, commit: CommitOutcome)

  /** `watermark[p]` is the next offset the group would read from partition p. */
  datatype Core = Core(watermark: seq<nat>, store: Store, buf: seq<Item>)

  const DEFAULT_BATCH_MAX := 500

  function EffectiveBatchMax(n: int): (r: nat)
    ensures r > 0 && (n > 0 ==> r == n) && (n <= 0 ==> r == 500)
  {
    if n <= 0 then DEFAULT_BATCH_MAX else n
  }

  function Points(buf: seq<Item>): (pts: seq<MetricPoint>)
    ensures |pts| == |buf|
    ensures forall i :: 0 <= i < |buf| ==> pts[i] == buf[i].point
  {
    seq(|buf|, i requires 0 <= i < |buf| => buf[i].point)
  }

  function Messages(buf: seq<Item>): (msgs: seq<Message>)
    ensures |msgs| == |buf|
    ensures forall i :: 0 <= i < |buf| ==> msgs[i] == buf[i].msg
  {
    seq(|buf|, i requires 0 <= i < |buf| => buf[i].msg)
  }

  /** One past the largest offset of partition p in the list; 0 if none. */
  function Top(msgs: seq<Message>, p: nat): (t: nat)
    ensures t == 0 <==> forall m :: m in msgs ==> m.at.part != p
    ensures t > 0 ==> exists m :: m in msgs && m.at == Pos(p, t - 1)
    ensures forall m :: m in msgs && m.at.part == p ==> m.at.off < t
  {
    if msgs == [] then 0
    else
      var n := |msgs| - 1;
      var t := Top(msgs[..n], p);
      assert msgs == msgs[..n] + [msgs[n]];
      if msgs[n].at.part == p && msgs[n].at.off >= t then
        assert msgs[n].at == Pos(p, msgs[n].at.off + 1 - 1);
        msgs[n].at.off + 1
      else t
  }

  /** Committing a list sets each touched partition to one past its largest
      offset in the list; the last commit wins. */
  function Commit(watermark: seq<nat>, msgs: seq<Message>, o: CommitOutcome): (w: seq<nat>)
    ensures |w| == |watermark|
    ensures forall p :: 0 <= p < |w| ==>
                          w[p] == if Top(msgs, p) > 0 && Applies(o, p) then Top(msgs, p) else watermark[p]
  {
    seq(|watermark|, p requires 0 <= p < |watermark| =>
      if Top(msgs, p) > 0 && Applies(o, p) then Top(msgs, p) else watermark[p])
  }

  // ---- flush -----------------------------------------------------------------

  datatype Verdict = NothingToFlush | WriteError | CommitError | Flushed

  function FlushVerdict(c: Core, io: Io): Verdict {
    if c.buf == [] then NothingToFlush
    else if WriteFails(|c.buf|, io.outs) then WriteError
    else if io.commit.CommitFailed? then CommitError
    else Flushed
  }

  function Flush(c: Core, io: Io): Core {
    var stored := Land(c.store, Points(c.buf), io.outs);
    match FlushVerdict(c, io)
    case NothingToFlush => c
    case WriteError => c.(store := stored)
    case CommitError => c.(store := stored, watermark := Commit(c.watermark, Messages(c.buf), io.commit))
    case Flushed => Core(Commit(c.watermark, Messages(c.buf), io.commit), stored, [])
  }

  lemma FlushBy(c: Core, io: Io, stored: Store, committed: seq<nat>)
    requires c.buf != [] && stored == Land(c.store, Points(c.buf), io.outs)
    requires committed == Commit(c.watermark, Messages(c.buf), io.commit)
    ensures Flush(c, io) == if WriteFails(|c.buf|, io.outs) then Core(c.watermark, stored, c.buf)
                            else Core(committed, stored, if io.commit.Committed? then [] else c.buf)
  {
  }

  /** What a flush does, case by case: an empty buffer costs nothing; a write in
      which every point failed leaves offsets and buffer alone; after any other
      write the batch is committed, and the buffer is emptied only if that
      succeeds. Whatever is written has landed point by point. */
  lemma FlushEffect(c: Core, io: Io)
    ensures c.buf == [] ==> Flush(c, io) == c
    ensures c.buf != [] ==> Flush(c, io).store == Land(c.store, Points(c.buf), io.outs)
    ensures c.buf != [] && (forall i :: 0 <= i < |c.buf| ==> OutcomeAt(io.outs, i).Failed?) ==>
              Flush(c, io).watermark == c.watermark && Flush(c, io).buf == c.buf
    ensures (exists i :: 0 <= i < |c.buf| && OutcomeAt(io.outs, i).Stored?) ==>
              && Flush(c, io).watermark == Commit(c.watermark, Messages(c.buf), io.commit)
              && Flush(c, io).buf == if io.commit.Committed? then [] else c.buf
  {
  }

  // ---- the select loop -------------------------------------------------------

  /** One turn of the loop: which case of the select fires. */
  datatype Choice =
    | Tick(io: Io)
    | Take(outcome: Outcome, cancelled: bool, io: Io)
    | Done(io: Io)

  function Append(c: Core, m: Message, e: LogEvent): Core {
    c.(buf := c.buf + [Item(m, Process(e))])
  }

  function TakeMessage(dec: Decoder, max: nat, c: Core, m: Message, io: Io): Core {
    match dec(m.value)
    case None => c.(watermark := Commit(c.watermark, [m], io.commit))
    case Some(e) =>
      var c' := Append(c, m, e);
      if |c'.buf| >= max then Flush(c', io) else c'
  }

  function Turn(dec: Decoder, max: nat, c: Core, choice: Choice): Core {
    match choice
    case Tick(io) => Flush(c, io)
    case Done(io) => Flush(c, io)
    case Take(FetchFailed, cancelled, io) => if cancelled then Flush(c, io) else c
    case Take(Fetched(m), _, io) => TakeMessage(dec, max, c, m, io)
  }

  /** The turns after which Run returns. */
  predicate Exits(dec: Decoder, choice: Choice) {
    match choice
    case Tick(_) => false
    case Done(_) => true
    case Take(FetchFailed, cancelled, _) => cancelled
    case Take(Fetched(m), _, io) => dec(m.value).None? && io.commit.CommitFailed?
  }

  /** The whole loop over a script of choices, up to the first one that exits. */
  function Turns(dec: Decoder, max: nat, c: Core, script: seq<Choice>): Core
    decreases |script|
  {
    if script == [] then c
    else
      var c' := Turn(dec, max, c, script[0]);
      if Exits(dec, script[0]) then c' else Turns(dec, max, c', script[1..])
  }

  /** Undecodable messages met before the loop returns. */
  function UndecodableTaken(dec: Decoder, script: seq<Choice>): nat
    decreases |script|
  {
    if script == [] then 0
    else
      (match script[0] case Take(Fetched(m), _, _) => (if dec(m.value).None? then 1 else 0) case _ => 0)
      + if Exits(dec, script[0]) then 0 else UndecodableTaken(dec, script[1..])
  }

  predicate Bad(dec: Decoder, choice: Choice) {
    choice.Take? && choice.outcome.Fetched? && dec(choice.outcome.msg.value).None?
  }

  ghost predicate StaysInLoop(dec: Decoder, script: seq<Choice>) {
    forall i :: 0 <= i < |script| ==> !Exits(dec, script[i])
  }

  /** Turns run one after the other, none is skipped, and an exit ends them. */
  lemma {:induction false} TurnsConcat(dec: Decoder, max: nat, c: Core, a: seq<Choice>, b: seq<Choice>)
    ensures StaysInLoop(dec, a) ==>
              && Turns(dec, max, c, a + b) == Turns(dec, max, Turns(dec, max, c, a), b)
              && UndecodableTaken(dec, a + b) == UndecodableTaken(dec, a) + UndecodableTaken(dec, b)
    ensures !StaysInLoop(dec, a) ==>
              Turns(dec, max, c, a + b) == Turns(dec, max, c, a)
              && UndecodableTaken(dec, a + b) == UndecodableTaken(dec, a)
    decreases |a|
  {
    if a == [] {
      assert a + b == b;
    } else {
      assert (a + b)[1..] == a[1..] + b && (a + b)[0] == a[0];
      TurnsConcat(dec, max, Turn(dec, max, c, a[0]), a[1..], b);
      assert StaysInLoop(dec, a) <==> !Exits(dec, a[0]) && StaysInLoop(dec, a[1..]) by {
        if !Exits(dec, a[0]) && StaysInLoop(dec, a[1..]) {
          assert forall i :: 0 < i < |a| ==> a[i] == a[1..][i - 1];
        }
      }
    }
  }

  lemma OneTurn(dec: Decoder, max: nat, c: Core, choice: Choice)
    ensures Turns(dec, max, c, []) == c && UndecodableTaken(dec, []) == 0
    ensures Turns(dec, max, c, [choice]) == Turn(dec, max, c, choice)
    ensures UndecodableTaken(dec, [choice]) == if Bad(dec, choice) then 1 else 0
  {
    assert [choice][1..] == [];
  }

  /** The decodable messages a script takes, as items. */
  function Taken(dec: Decoder, script: seq<Choice>): seq<Item>
    decreases |script|
  {
    if script == [] then []
    else
      (match script[0]
       case Take(Fetched(m), _, _) => (match dec(m.value) case None => [] case Some(e) => [Item(m, Process(e))])
       case _ => [])
      + Taken(dec, script[1..])
  }

  /** Neither a tick, nor an exit, nor an undecodable message. */
  ghost predicate OnlyTakes(dec: Decoder, script: seq<Choice>) {
    forall i :: 0 <= i < |script| ==>
                  script[i].Take? && !Bad(dec, script[i]) && (script[i].outcome.FetchFailed? ==> !script[i].cancelled)
  }

  /** Fewer messages than BatchMax stay in the buffer: nothing is written and no
      offset is committed. */
  lemma {:induction false} WaitsForBatch(dec: Decoder, max: nat, c: Core, script: seq<Choice>)
    requires OnlyTakes(dec, script) && |c.buf| + |Taken(dec, script)| < max
    ensures Turns(dec, max, c, script).watermark == c.watermark && Turns(dec, max, c, script).store == c.store
    ensures Turns(dec, max, c, script).buf == c.buf + Taken(dec, script)
    decreases |script|
  {
    if script != [] {
      assert forall i :: 0 <= i < |script| - 1 ==> script[1..][i] == script[i + 1];
      WaitsForBatch(dec, max, Turn(dec, max, c, script[0]), script[1..]);
    }
  }
}
