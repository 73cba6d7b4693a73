/** The collector's state machine together with the topic its workers write to:
    parser and encoder decide the workers' verdicts, the broker answers each
    write, and a balancer picks the partition. */
module PublishedTopic {
  import opened Domain
  import opened Config
  import opened Publisher
  import opened RunnerCore
  import C = CollectorModel
  import Code = CollectorCode

  datatype Codec = Codec(parse: Code.Parser, encode: Encoder)

  /** `places[k]` is where the topic holds the message of the k-th job whose
      publishing succeeded. */
  datatype State = State(c: C.State, topic: seq<seq<Bytes>>, places: seq<Pos>)

  /** `part` and `answer` matter when a worker publishes. */
  datatype Step = Step(step: C.Step, part: nat, answer: Answer)

  function Init(cfg: BackpressureConfig, partitions: nat): State
    requires C.Usable(cfg)
  {
    State(C.Init(cfg), seq(partitions, _ => []), [])
  }

  /** What a worker hands to the broker for a payload, if anything. */
  function Encoded(d: Codec, payload: Bytes): Option<seq<Bytes>> {
    match d.parse(payload)
    case None => None
    case Some(ev) => EncodeAll(d.encode, [ev])
  }

  predicate IsPublishing(s: State, st: Step) {
    st.step.Worker? && st.step.worker < |s.c.workers| && s.c.workers[st.step.worker].Publishing?
  }

  function Payload(s: State, st: Step): Bytes
    requires IsPublishing(s, st)
  {
    s.c.workers[st.step.worker].job.payload
  }

  /** The verdicts the collector's machine leaves open are those of the parser,
      of the encoder and of the broker. */
  predicate Enabled(d: Codec, s: State, st: Step) {
    && C.Enabled(s.c, st.step)
    && (st.step.Worker? && s.c.workers[st.step.worker].Parsing? ==>
          st.step.ok == d.parse(s.c.workers[st.step.worker].job.payload).Some?)
    && (IsPublishing(s, st) ==>
          match Encoded(d, Payload(s, st))
          case None => !st.step.ok
          case Some(_) => st.part < |s.topic| && st.step.ok == st.answer.Acked?)
  }

  function Next(d: Codec, s: State, st: Step): State
    requires Enabled(d, s, st)
  {
    var c := C.Next(s.c, st.step);
    if IsPublishing(s, st) && Encoded(d, Payload(s, st)).Some? then
      var log := s.topic[st.part];
      State(c, s.topic[st.part := Publisher.Append(log, Encoded(d, Payload(s, st)).value, st.answer)],
            if st.step.ok then s.places + [Pos(st.part, |log|)] else s.places)
    else s.(c := c)
  }

  ghost predicate Path(d: Codec, a: State, steps: seq<Step>, b: State)
    decreases |steps|
  {
    if steps == [] then a == b
    else Enabled(d, a, steps[0]) && Path(d, Next(d, a, steps[0]), steps[1..], b)
  }

  ghost predicate Reachable(cfg: BackpressureConfig, d: Codec, partitions: nat, s: State) {
    C.Usable(cfg) && exists steps :: Path(d, Init(cfg, partitions), steps, s)
  }

  // ---- the collector's part of a run -----------------------------------------

  function CollectorSteps(steps: seq<Step>): seq<C.Step> {
    seq(|steps|, i requires 0 <= i < |steps| => steps[i].step)
  }

  lemma {:induction false} Projects(d: Codec, a: State, steps: seq<Step>, b: State)
    requires Path(d, a, steps, b)
    ensures C.Path(a.c, CollectorSteps(steps), b.c)
    decreases |steps|
  {
    if steps != [] {
      Projects(d, Next(d, a, steps[0]), steps[1..], b);
      assert CollectorSteps(steps)[1..] == CollectorSteps(steps[1..]);
    }
  }

  // ---- the topic holds what was published ------------------------------------

  ghost predicate IsEncoded(enc: Encoder, m: Bytes) {
    exists e :: enc(e) == Some(m)
  }

  ghost predicate AllEncoded(enc: Encoder, topic: seq<seq<Bytes>>) {
    forall p, off :: 0 <= p < |topic| && 0 <= off < |topic[p]| ==> IsEncoded(enc, topic[p][off])
  }

  predicate InLogs(topic: seq<seq<Bytes>>, at: Pos) {
    at.part < |topic| && at.off < |topic[at.part]|
  }

  /** The message at `at` is the job's parsed event, encoded. */
  ghost predicate CarriesJob(d: Codec, topic: seq<seq<Bytes>>, job: C.Job, at: Pos) {
    InLogs(topic, at) && Encoded(d, job.payload) == Some([topic[at.part][at.off]])
  }

  ghost predicate Carries(d: Codec, topic: seq<seq<Bytes>>, jobs: seq<C.Job>, places: seq<Pos>) {
    && |places| == |jobs|
    && (forall k :: 0 <= k < |jobs| ==> CarriesJob(d, topic, jobs[k], places[k]))
    && (forall k, l :: 0 <= k < l < |jobs| ==> places[k] != places[l])
  }

  function Published(s: State): seq<C.Job> {
    C.Ended(s.c.finished, C.Published)
  }

  ghost predicate TopicInv(d: Codec, partitions: nat, s: State) {
    |s.topic| == partitions && AllEncoded(d.encode, s.topic) && Carries(d, s.topic, Published(s), s.places)
  }

  /** Each log continues the earlier one. */
  ghost predicate Grows(topic: seq<seq<Bytes>>, topic': seq<seq<Bytes>>) {
    |topic| == |topic'| && forall p :: 0 <= p < |topic| ==> topic[p] <= topic'[p]
  }

  lemma EncodedOne(d: Codec, payload: Bytes)
    requires Encoded(d, payload).Some?
    ensures |Encoded(d, payload).value| == 1 && IsEncoded(d.encode, Encoded(d, payload).value[0])
  {
    EncodeOne(d.encode, d.parse(payload).value);
  }

  /** One message, written or not, at the end of a log. */
  lemma AppendOne(log: seq<Bytes>, msgs: seq<Bytes>, answer: Answer)
    requires |msgs| == 1
    ensures Publisher.Append(log, msgs, answer) == log + msgs
            || (answer.Refused? && Publisher.Append(log, msgs, answer) == log)
  {
    if answer.Refused? {
      assert Kept(msgs[..0], answer.landed) == [];
      assert Kept(msgs, answer.landed) == if 0 in answer.landed then msgs else [];
    }
  }

  lemma NextGrows(d: Codec, s: State, st: Step)
    requires Enabled(d, s, st)
    ensures Grows(s.topic, Next(d, s, st).topic) && s.places <= Next(d, s, st).places
  {
    if IsPublishing(s, st) && Encoded(d, Payload(s, st)).Some? {
      PublishAppends(s.topic[st.part], Encoded(d, Payload(s, st)).value, st.answer);
    }
  }

  lemma CarriesLater(d: Codec, topic: seq<seq<Bytes>>, topic': seq<seq<Bytes>>, job: C.Job, at: Pos)
    requires Grows(topic, topic') && CarriesJob(d, topic, job, at)
    ensures CarriesJob(d, topic', job, at)
  {
    assert topic[at.part] <= topic'[at.part];
  }

  lemma AppendKeepsEncoded(d: Codec, s: State, st: Step)
    requires Enabled(d, s, st) && AllEncoded(d.encode, s.topic)
    ensures AllEncoded(d.encode, Next(d, s, st).topic)
  {
    if IsPublishing(s, st) && Encoded(d, Payload(s, st)).Some? {
      EncodedOne(d, Payload(s, st));
      AppendOne(s.topic[st.part], Encoded(d, Payload(s, st)).value, st.answer);
    }
  }

  /** What a step adds to the published jobs. */
  lemma PublishedNext(s: C.State, step: C.Step)
    requires C.Enabled(s, step)
    ensures var publishes := step.Worker? && s.workers[step.worker].Publishing? && step.ok;
            C.Ended(C.Next(s, step).finished, C.Published)
            == C.Ended(s.finished, C.Published) + if publishes then [s.workers[step.worker].job] else []
  {
    match step {
      case Worker(w, ok) =>
        match s.workers[w] {
          case Parsing(j) => C.EndedSnoc(s.finished, C.Finish(j, C.ParseFailed), C.Published);
          case Publishing(j) =>
            C.EndedSnoc(s.finished, C.Finish(j, if ok then C.Published else C.PublishFailed), C.Published);
          case _ =>
        }
      case Producer(i) => C.CallMoves(s, i);
      case _ =>
    }
  }

  /** A new place at the end of its log is a place of its own. */
  lemma CarriesMore(d: Codec, topic: seq<seq<Bytes>>, topic': seq<seq<Bytes>>, jobs: seq<C.Job>, places: seq<Pos>,
                    job: C.Job, at: Pos)
    requires Carries(d, topic, jobs, places) && Grows(topic, topic')
    requires CarriesJob(d, topic', job, at) && !InLogs(topic, at)
    ensures Carries(d, topic', jobs + [job], places + [at])
  {
    forall k | 0 <= k < |jobs| ensures CarriesJob(d, topic', jobs[k], places[k]) && places[k] != at {
      assert CarriesJob(d, topic, jobs[k], places[k]);
      CarriesLater(d, topic, topic', jobs[k], places[k]);
    }
  }

  lemma CarriesStill(d: Codec, topic: seq<seq<Bytes>>, topic': seq<seq<Bytes>>, jobs: seq<C.Job>, places: seq<Pos>)
    requires Carries(d, topic, jobs, places) && Grows(topic, topic')
    ensures Carries(d, topic', jobs, places)
  {
    forall k | 0 <= k < |jobs| ensures CarriesJob(d, topic', jobs[k], places[k]) {
      assert CarriesJob(d, topic, jobs[k], places[k]);
      CarriesLater(d, topic, topic', jobs[k], places[k]);
    }
  }

  lemma NextCarries(d: Codec, s: State, st: Step)
    requires Enabled(d, s, st) && Carries(d, s.topic, Published(s), s.places)
    ensures var t := Next(d, s, st); Carries(d, t.topic, Published(t), t.places)
  {
    var t := Next(d, s, st);
    NextGrows(d, s, st);
    PublishedNext(s.c, st.step);
    if IsPublishing(s, st) && st.step.ok {
      var log := s.topic[st.part];
      EncodedOne(d, Payload(s, st));
      AppendOne(log, Encoded(d, Payload(s, st)).value, st.answer);
      assert Encoded(d, Payload(s, st)).value == [t.topic[st.part][|log|]];
      CarriesMore(d, s.topic, t.topic, Published(s), s.places, s.c.workers[st.step.worker].job, Pos(st.part, |log|));
    } else {
      assert Published(s) + [] == Published(s);
      CarriesStill(d, s.topic, t.topic, Published(s), s.places);
    }
  }

  lemma {:induction false} PathTopic(d: Codec, partitions: nat, a: State, steps: seq<Step>, b: State)
    requires TopicInv(d, partitions, a) && Path(d, a, steps, b)
    ensures TopicInv(d, partitions, b)
    decreases |steps|
  {
    if steps != [] {
      NextGrows(d, a, steps[0]);
      AppendKeepsEncoded(d, a, steps[0]);
      NextCarries(d, a, steps[0]);
      PathTopic(d, partitions, Next(d, a, steps[0]), steps[1..], b);
    }
  }

  /** In every run, whatever is refused, lost or interleaved: the collector's part
      is a run of the collector, every message of the topic is an encoding, and
      each job counted as published has a message of its own. */
  lemma TopicCarriesPublished(cfg: BackpressureConfig, d: Codec, partitions: nat, s: State)
    requires Reachable(cfg, d, partitions, s)
    ensures C.Reachable(cfg, s.c)
    ensures AllEncoded(d.encode, s.topic)
    ensures Carries(d, s.topic, Published(s), s.places)
  {
    var steps :| Path(d, Init(cfg, partitions), steps, s);
    Projects(d, Init(cfg, partitions), steps, s);
    PathTopic(d, partitions, Init(cfg, partitions), steps, s);
  }

  // ---- verdicts --------------------------------------------------------------

  /** The verdict of a finished job, in terms of its payload. */
  ghost predicate RightVerdict(d: Codec, f: C.Finish)
    ensures RightVerdict(d, f) ==>
              && (f.verdict == C.ParseFailed <==> d.parse(f.job.payload) == None)
              && (f.verdict == C.Published ==> d.encode(d.parse(f.job.payload).value) != None)
  {
    match d.parse(f.job.payload)
    case None => f.verdict == C.ParseFailed
    case Some(ev) =>
      if d.encode(ev).None? then f.verdict == C.PublishFailed
      else f.verdict == C.Published || f.verdict == C.PublishFailed
  }

  ghost predicate VerdictInv(d: Codec, c: C.State) {
    && (forall f :: f in c.finished ==> RightVerdict(d, f))
    && (forall w :: 0 <= w < |c.workers| && c.workers[w].Publishing? ==> d.parse(c.workers[w].job.payload).Some?)
  }

  lemma WorkerVerdict(d: Codec, s: State, st: Step)
    requires Enabled(d, s, st) && st.step.Worker? && VerdictInv(d, s.c)
    ensures VerdictInv(d, Next(d, s, st).c)
  {
    var w, c' := st.step.worker, C.WorkerNext(s.c, st.step.worker, st.step.ok);
    C.WorkerOnly(s.c, w, st.step.ok);
    if s.c.workers[w].Publishing? {
      EncodeOne(d.encode, d.parse(Payload(s, st)).value);
    }
    forall f | f in c'.finished ensures RightVerdict(d, f) {
      if f !in s.c.finished {
        assert f == c'.finished[|s.c.finished|];
      }
    }
  }

  lemma VerdictStep(d: Codec, s: State, st: Step)
    requires Enabled(d, s, st) && VerdictInv(d, s.c)
    ensures VerdictInv(d, Next(d, s, st).c)
  {
    match st.step {
      case Worker(_, _) => WorkerVerdict(d, s, st);
      case Producer(i) => C.CallMoves(s.c, i);
      case _ =>
    }
  }

  lemma {:induction false} VerdictPath(d: Codec, a: State, steps: seq<Step>, b: State)
    requires VerdictInv(d, a.c) && Path(d, a, steps, b)
    ensures VerdictInv(d, b.c)
    decreases |steps|
  {
    if steps != [] {
      VerdictStep(d, a, steps[0]);
      VerdictPath(d, Next(d, a, steps[0]), steps[1..], b);
    }
  }

  /** In every run a job ends as a parse failure exactly if it does not parse, as
      a publish failure if its event does not encode, and as published only if
      the event encodes. */
  lemma VerdictsAreRight(cfg: BackpressureConfig, d: Codec, partitions: nat, s: State, k: nat)
    requires Reachable(cfg, d, partitions, s) && k < |s.c.finished|
    ensures var f := s.c.finished[k];
            && (f.verdict == C.ParseFailed <==> d.parse(f.job.payload).None?)
            && (d.parse(f.job.payload).Some? && d.encode(d.parse(f.job.payload).value).None? ==>
                  f.verdict == C.PublishFailed)
            && (f.verdict == C.Published ==> d.encode(d.parse(f.job.payload).value).Some?)
  {
    var steps :| Path(d, Init(cfg, partitions), steps, s);
    VerdictPath(d, Init(cfg, partitions), steps, s);
    assert RightVerdict(d, s.c.finished[k]);
  }

  // ---- no duplicates ---------------------------------------------------------

  function Size(topic: seq<seq<Bytes>>): nat {
    if topic == [] then 0 else Size(topic[..|topic| - 1]) + |topic[|topic| - 1]|
  }

  lemma {:induction false} SizeUpdate(topic: seq<seq<Bytes>>, p: nat, log: seq<Bytes>)
    requires p < |topic|
    ensures Size(topic[p := log]) == Size(topic) - |topic[p]| + |log|
  {
    var n := |topic| - 1;
    if p == n {
      assert topic[p := log][..n] == topic[..n];
    } else {
      assert topic[p := log][..n] == topic[..n][p := log];
      SizeUpdate(topic[..n], p, log);
    }
  }

  /** Jobs whose publishing was tried. */
  function Tried(s: State): nat {
    |C.Ended(s.c.finished, C.Published)| + |C.Ended(s.c.finished, C.PublishFailed)|
  }

  lemma TriedNext(d: Codec, s: State, st: Step)
    requires Enabled(d, s, st)
    ensures Tried(Next(d, s, st)) == Tried(s) + if IsPublishing(s, st) then 1 else 0
  {
    match st.step {
      case Worker(w, ok) =>
        match s.c.workers[w] {
          case Parsing(j) =>
            C.EndedSnoc(s.c.finished, C.Finish(j, C.ParseFailed), C.Published);
            C.EndedSnoc(s.c.finished, C.Finish(j, C.ParseFailed), C.PublishFailed);
          case Publishing(j) =>
            C.EndedSnoc(s.c.finished, C.Finish(j, if ok then C.Published else C.PublishFailed), C.Published);
            C.EndedSnoc(s.c.finished, C.Finish(j, if ok then C.Published else C.PublishFailed), C.PublishFailed);
          case _ =>
        }
      case Producer(i) => C.CallMoves(s.c, i);
      case _ =>
    }
  }

  lemma SizeNext(d: Codec, s: State, st: Step)
    requires Enabled(d, s, st)
    ensures Size(Next(d, s, st).topic) <= Size(s.topic) + if IsPublishing(s, st) then 1 else 0
  {
    if IsPublishing(s, st) && Encoded(d, Payload(s, st)).Some? {
      EncodedOne(d, Payload(s, st));
      AppendOne(s.topic[st.part], Encoded(d, Payload(s, st)).value, st.answer);
      SizeUpdate(s.topic, st.part, Next(d, s, st).topic[st.part]);
    }
  }

  lemma {:induction false} SizePath(d: Codec, a: State, steps: seq<Step>, b: State)
    requires Size(a.topic) <= Tried(a) && Path(d, a, steps, b)
    ensures Size(b.topic) <= Tried(b)
    decreases |steps|
  {
    if steps != [] {
      SizeNext(d, a, steps[0]);
      TriedNext(d, a, steps[0]);
      SizePath(d, Next(d, a, steps[0]), steps[1..], b);
    }
  }

  lemma {:induction false} EmptyTopic(n: nat)
    ensures Size(seq(n, _ => [])) == 0
  {
    if n > 0 {
      var topic: seq<seq<Bytes>> := seq(n, _ => []);
      assert topic[..n - 1] == seq(n - 1, _ => []);
      EmptyTopic(n - 1);
    }
  }

  /** Nothing is written twice: the topic never holds more messages than jobs were
      tried to publish. */
  lemma NoDuplicates(cfg: BackpressureConfig, d: Codec, partitions: nat, s: State)
    requires Reachable(cfg, d, partitions, s)
    ensures Size(s.topic) <= |C.Ended(s.c.finished, C.Published)| + |C.Ended(s.c.finished, C.PublishFailed)|
  {
    var steps :| Path(d, Init(cfg, partitions), steps, s);
    EmptyTopic(partitions);
    SizePath(d, Init(cfg, partitions), steps, s);
  }

  /** The topic is append-only: later states keep every message at its place. */
  lemma {:induction false} TopicOnlyGrows(d: Codec, a: State, steps: seq<Step>, b: State)
    requires Path(d, a, steps, b)
    ensures Grows(a.topic, b.topic) && a.places <= b.places
    decreases |steps|
  {
    if steps != [] {
      var a' := Next(d, a, steps[0]);
      NextGrows(d, a, steps[0]);
      TopicOnlyGrows(d, a', steps[1..], b);
      forall p | 0 <= p < |a.topic| ensures a.topic[p] <= b.topic[p] {
        assert a.topic[p] <= a'.topic[p] <= b.topic[p];
      }
    }
  }
}
