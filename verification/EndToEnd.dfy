/** From an accepted payload to the store: the collector, the topic it writes
    and the processor that reads it, for any codec that decodes what it encodes. */
module EndToEnd {
  import opened Domain
  import opened Config
  import opened Sequences
  import opened Storage
  import opened Processor
  import opened Publisher
  import C = CollectorModel
  import CC = CollectorCounts
  import CS = CollectorShutdown
  import Code = CollectorCode
  import T = PublishedTopic
  import opened RunnerCore
  import opened RunnerModel
  import opened RunnerSafety
  import opened RunnerTheorems
  import opened RunnerReplay
  import opened RunnerConverge

  ghost predicate RoundTrips(enc: Encoder, dec: Decoder) {
    forall e :: enc(e).Some? ==> dec(enc(e).value) == Some(e)
  }

  /** The workers of the sequential code write nothing else either: every message
      they add is an encoding. */
  lemma {:induction false} WorkersFeed(parse: Code.Parser, enc: Encoder, b: Code.Books, payloads: seq<Bytes>,
                                       answers: seq<Answer>, m: Bytes)
    requires m in Code.HandleAll(parse, enc, b, payloads, answers).log && m !in b.log
    ensures T.IsEncoded(enc, m)
  {
    if payloads != [] {
      var n := |payloads| - 1;
      var before := Code.HandleAll(parse, enc, b, payloads[..n], answers);
      var after := Code.HandleAll(parse, enc, b, payloads, answers);
      if m in before.log {
        WorkersFeed(parse, enc, b, payloads[..n], answers, m);
      } else {
        var e := parse(payloads[n]).value;
        var msgs := [enc(e).value];
        PublishAppends(before.log, msgs, Code.AnswerAt(answers, n));
        assert after.log == before.log + after.log[|before.log|..];
        var f :| Embeds(after.log[|before.log|..], msgs, f);
        assert m in after.log[|before.log|..];
        assert enc(e) == Some(m);
      }
    }
  }

  /** The processor reads the topic of a run of the collector. */
  ghost predicate Joint(cfg: BackpressureConfig, d: T.Codec, partitions: nat, t: T.State, env: Env) {
    RoundTrips(d.encode, env.decode) && T.Reachable(cfg, d, partitions, t) && env.topic == t.topic
  }

  lemma TopicDecodes(cfg: BackpressureConfig, d: T.Codec, partitions: nat, t: T.State, env: Env)
    requires Joint(cfg, d, partitions, t, env)
    ensures EverythingDecodes(env)
  {
    T.TopicCarriesPublished(cfg, d, partitions, t);
    forall at | InTopic(env, at) ensures Decodable(env, at) {
      assert T.IsEncoded(d.encode, t.topic[at.part][at.off]);
      var e :| d.encode(e) == Some(t.topic[at.part][at.off]);
    }
  }

  /** On such a topic the undecodable branch is dead, nothing is ever at risk,
      and at-least-once holds without a condition. */
  lemma AtLeastOnceUnconditionally(cfg: BackpressureConfig, d: T.Codec, partitions: nat, t: T.State, env: Env,
                                   store: Store, s: State, at: Pos)
    requires Joint(cfg, d, partitions, t, env) && Reachable(env, store, s)
    ensures s.h.poisoned == {} && s.h.orphans == {}
    ensures at.part < |s.core.watermark| && at.off < s.core.watermark[at.part] ==> at in s.h.accepted
  {
    TopicDecodes(cfg, d, partitions, t, env);
    ReachableInv(env, store, s);
    forall q ensures !Undecodable(env, q) {
      assert InTopic(env, q) ==> Decodable(env, q);
    }
    forall q ensures q !in s.h.orphans {
      assert q in s.h.orphans ==> Orphaned(env, s.h.start, s.h.accepted, q);
    }
    if at.part < |s.core.watermark| && at.off < s.core.watermark[at.part] {
      AtLeastOnce(env, store, s, at);
    }
  }

  /** The event of a published job is the one its message decodes to. */
  lemma PublishedEvent(cfg: BackpressureConfig, d: T.Codec, partitions: nat, t: T.State, env: Env, k: nat)
    requires Joint(cfg, d, partitions, t, env) && k < |t.places|
    ensures |t.places| == |T.Published(t)| && Decodable(env, t.places[k])
    ensures d.parse(T.Published(t)[k].payload) == Some(EventAt(env, t.places[k]))
  {
    T.TopicCarriesPublished(cfg, d, partitions, t);
    assert T.CarriesJob(d, t.topic, T.Published(t)[k], t.places[k]);
    var e := d.parse(T.Published(t)[k].payload).value;
    EncodeOne(d.encode, e);
  }

  lemma {:induction false} DistinctCount(places: seq<Pos>, s: set<Pos>)
    requires forall k, l :: 0 <= k < l < |places| ==> places[k] != places[l]
    requires forall k :: 0 <= k < |places| ==> places[k] in s
    ensures |places| <= |s|
  {
    if places != [] {
      var n := |places| - 1;
      DistinctCount(places[..n], s - {places[n]});
    }
  }

  /** Once the processor has caught up, through any failures and crashes, every
      event the collector counts as published has been accepted by the storage,
      each under a message of its own that decodes to it. */
  lemma PublishedIsAccepted(cfg: BackpressureConfig, d: T.Codec, partitions: nat, t: T.State, env: Env,
                            store: Store, s: State)
    requires Joint(cfg, d, partitions, t, env) && Reachable(env, store, s) && CaughtUp(env, s)
    ensures forall k :: 0 <= k < |t.places| ==>
                          && t.places[k] in s.h.accepted && |t.places| == |T.Published(t)| && Decodable(env, t.places[k])
                          && d.parse(T.Published(t)[k].payload) == Some(EventAt(env, t.places[k]))
    ensures forall k, l :: 0 <= k < l < |t.places| ==> t.places[k] != t.places[l]
    ensures t.c.counters.published <= |t.places| <= |s.h.accepted|
  {
    T.TopicCarriesPublished(cfg, d, partitions, t);
    TopicDecodes(cfg, d, partitions, t, env);
    forall k | 0 <= k < |t.places|
      ensures && t.places[k] in s.h.accepted && |t.places| == |T.Published(t)| && Decodable(env, t.places[k])
              && d.parse(T.Published(t)[k].payload) == Some(EventAt(env, t.places[k]))
    {
      PublishedEvent(cfg, d, partitions, t, env, k);
      EndAccepts(env, store, s, t.places[k]);
    }
    DistinctCount(t.places, s.h.accepted);
    CC.CounterMeaning(cfg, t.c);
  }

  /** If moreover writes that return nil are whole, every cell of every published
      event is in the store: with a value that some message of the topic gives
      it; with the event's own value if no two events share a key and differ;
      and with the last value of its partition if commits are honest and the
      partitions agree. */
  lemma PublishedIsStored(cfg: BackpressureConfig, d: T.Codec, partitions: nat, t: T.State, env: Env,
                          store: Store, s: State, k: nat, ev: LogEvent, cell: Cell)
    requires Joint(cfg, d, partitions, t, env) && WholeEnd(env, store, s)
    requires k < |T.Published(t)| && d.parse(T.Published(t)[k].payload) == Some(ev) && cell in Cells(Process(ev))
    ensures Written(env, s.core.store, cell)
    ensures NoConflict(env) ==> s.core.store[cell] == Process(ev).fields[cell.field]
    ensures EverythingDecodes(env) && k < |t.places| && t.places[k].part < |env.topic|
    ensures s.h.honest && LastWritesAgree(env) ==>
              At(s.core.store, cell) == LastWrite(FullLog(env, t.places[k].part), cell)
  {
    T.TopicCarriesPublished(cfg, d, partitions, t);
    TopicDecodes(cfg, d, partitions, t, env);
    PublishedEvent(cfg, d, partitions, t, env, k);
    var at := t.places[k];
    EndAccepts(env, store, s, at);
    AcceptedIsStored(env, store, s, at, cell);
    if NoConflict(env) {
      WrittenValue(env, s.core.store, at, cell);
    }
    if s.h.honest && LastWritesAgree(env) {
      PointInTail(env, at, 0, cell);
      CaughtUpCell(env, store, s, cell);
    }
  }

  /** Nothing is lost silently: when the handlers were drained before Shutdown,
      Shutdown has returned and the processor has caught up, every call ever made
      was counted as a drop or has a message of its own that storage accepted. */
  lemma NothingLostSilently(cfg: BackpressureConfig, d: T.Codec, partitions: nat, steps: seq<T.Step>, t: T.State,
                            env: Env, store: Store, s: State)
    requires C.Usable(cfg) && T.Path(d, T.Init(cfg, partitions), steps, t)
    requires CS.HandlersDrained(C.Init(cfg), T.CollectorSteps(steps)) && t.c.shutdown == C.Returned
    requires RoundTrips(d.encode, env.decode) && env.topic == t.topic
    requires Reachable(env, store, s) && CaughtUp(env, s)
    ensures |t.c.calls| == |t.places| + CC.DropTotal(t.c.counters)
    ensures forall k :: 0 <= k < |t.places| ==> t.places[k] in s.h.accepted
    ensures forall k, l :: 0 <= k < l < |t.places| ==> t.places[k] != t.places[l]
  {
    T.Projects(d, T.Init(cfg, partitions), steps, t);
    CS.DrainedShutdownClosesBooks(cfg, T.CollectorSteps(steps), t.c);
    CS.ShutdownDrains(cfg, t.c);
    T.TopicCarriesPublished(cfg, d, partitions, t);
    PublishedIsAccepted(cfg, d, partitions, t, env, store, s);
  }
}
