/** The collector's Service as code: Ingest and IngestBatch with the pooled copy,
    the worker's handleJob and loop, and Shutdown, each run without
    interruption. The interleavings are CollectorModel's subject. */
module CollectorCode {
  import opened Domain
  import opened Config
  import opened Pool
  import opened Publisher
  import opened IngestSpec

  datatype Job = Job(payload: array<byte>, sourceTag: string)

  /** A send on a closed channel panics. Panics are out-parameters here; the
      caller of a method that panicked returns at once. */
  datatype SendResult = Sent | Full | Panics

  class Channel {
    const capacity: nat
    var items: seq<Job>
    var closed: bool

    constructor (capacity: nat)
      ensures this.capacity == capacity && items == [] && !closed
    {
      this.capacity := capacity;
      items := [];
      closed := false;
    }

    /** The non-blocking send of a select with a default case. */
    method TrySend(j: Job) returns (r: SendResult)
      modifies this`items
      ensures r == if closed then Panics else if |old(items)| < capacity then Sent else Full
      ensures items == if r == Sent then old(items) + [j] else old(items)
    {
      if closed {
        return Panics;
      }
      if |items| < capacity {
        items := items + [j];
        return Sent;
      }
      return Full;
    }

    method TryReceive() returns (received: bool)
      modifies this`items
      ensures received <==> old(items) != []
      ensures items == if received then old(items)[1..] else []
    {
      received := items != [];
      if received {
        items := items[1..];
      }
    }

    method Receive() returns (j: Job)
      requires items != []
      modifies this`items
      ensures j == old(items)[0] && items == old(items)[1..]
    {
      j := items[0];
      items := items[1..];
    }
  }

  datatype Counts = Counts(
    empty: nat, full: nat, ingested: nat, parseErrors: nat, publishErrors: nat, published: nat)

  class Metrics {
    var empty: nat
    var full: nat
    var ingested: nat
    var parseErrors: nat
    var publishErrors: nat
    var published: nat

    constructor ()
      ensures empty == full == ingested == parseErrors == publishErrors == published == 0
    {
      empty, full, ingested, parseErrors, publishErrors, published := 0, 0, 0, 0, 0, 0;
    }

    /** The counters of Ingest: empty, full, ingested. */
    ghost function IngestSide(): (r: (nat, nat, nat))
      reads this
      ensures r.0 == empty && r.1 == full && r.2 == ingested
    {
      (empty, full, ingested)
    }

    ghost function Now(): (c: Counts)
      reads this
      ensures c.empty == empty && c.full == full && c.ingested == ingested
      ensures c.parseErrors == parseErrors && c.publishErrors == publishErrors && c.published == published
    {
      Counts(empty, full, ingested, parseErrors, publishErrors, published)
    }
  }

  type Parser = Bytes -> Option<LogEvent>

  // ---- the worker side, on values --------------------------------------------

  /** What the workers leave behind: the topic and their three counters. */
  datatype Books = Books(log: seq<Bytes>, parseErrors: nat, publishErrors: nat, published: nat)

  /** `answer` is the broker's answer to this job's write. */
  function Handle(parse: Parser, enc: Encoder, b: Books, payload: Bytes, answer: Answer): Books {
    match parse(payload)
    case None => b.(parseErrors := b.parseErrors + 1)
    case Some(ev) =>
      match enc(ev)
      case None => b.(publishErrors := b.publishErrors + 1)
      case Some(m) =>
        var b' := b.(log := Append(b.log, [m], answer));
        if answer.Acked? then b'.(published := b'.published + 1)
        else b'.(publishErrors := b'.publishErrors + 1)
  }

  /** Job k of the list gets answer k; missing answers are acknowledgements. */
  function AnswerAt(answers: seq<Answer>, k: nat): Answer {
    if k < |answers| then answers[k] else Acked
  }

  function HandleAll(parse: Parser, enc: Encoder, b: Books, payloads: seq<Bytes>, answers: seq<Answer>): Books {
    if payloads == [] then b
    else
      var n := |payloads| - 1;
      Handle(parse, enc, HandleAll(parse, enc, b, payloads[..n], answers), payloads[n], AnswerAt(answers, n))
  }

  lemma PublishOne(log: seq<Bytes>, enc: Encoder, ev: Option<LogEvent>, answer: Answer)
    ensures ev.Some? && enc(ev.value).Some? ==>
              var m := enc(ev.value).value;
              Append(log, [m], answer) == log + [m] || (answer.Refused? && Append(log, [m], answer) == log)
  {
    if ev.Some? && enc(ev.value).Some? && answer.Refused? {
      assert Kept([enc(ev.value).value][..0], answer.landed) == [];
    }
  }

  /** The payloads that do not parse. */
  function Unparsed(parse: Parser, payloads: seq<Bytes>): (r: set<nat>)
    ensures forall k: nat :: k in r <==> k < |payloads| && parse(payloads[k]).None?
  {
    set k: nat | k < |payloads| && parse(payloads[k]).None?
  }

  /** The payloads whose event encodes and is acknowledged. */
  function Acknowledged(parse: Parser, enc: Encoder, payloads: seq<Bytes>, answers: seq<Answer>): (r: set<nat>)
    ensures forall k: nat :: k in r <==> k < |payloads| && parse(payloads[k]).Some?
                                         && enc(parse(payloads[k]).value).Some? && AnswerAt(answers, k).Acked?
  {
    set k: nat | k < |payloads| && parse(payloads[k]).Some?
                 && enc(parse(payloads[k]).value).Some? && AnswerAt(answers, k).Acked?
  }

  /** The payloads that parse and then fail to encode or are refused. */
  function Unpublished(parse: Parser, enc: Encoder, payloads: seq<Bytes>, answers: seq<Answer>): (r: set<nat>)
    ensures forall k: nat :: k in r <==> k < |payloads| && parse(payloads[k]).Some?
                                         && (enc(parse(payloads[k]).value).None? || AnswerAt(answers, k).Refused?)
  {
    set k: nat | k < |payloads| && parse(payloads[k]).Some?
                 && (enc(parse(payloads[k]).value).None? || AnswerAt(answers, k).Refused?)
  }

  lemma SetGrows(a: set<nat>, b: set<nat>, n: nat)
    requires n !in a && forall k :: k in b <==> k in a || (k == n && n in b)
    ensures |b| == |a| + if n in b then 1 else 0
  {
    assert b == if n in b then a + {n} else a;
  }

  /** The counters tell the payloads that do not parse, those whose event encodes
      and is acknowledged, and the rest. */
  lemma {:induction false} HandledCounts(parse: Parser, enc: Encoder, b: Books, payloads: seq<Bytes>,
                                         answers: seq<Answer>)
    ensures var r := HandleAll(parse, enc, b, payloads, answers);
            && r.parseErrors == b.parseErrors + |Unparsed(parse, payloads)|
            && r.published == b.published + |Acknowledged(parse, enc, payloads, answers)|
            && r.publishErrors == b.publishErrors + |Unpublished(parse, enc, payloads, answers)|
  {
    if payloads != [] {
      var n := |payloads| - 1;
      var before := payloads[..n];
      HandledCounts(parse, enc, b, before, answers);
      SetGrows(Unparsed(parse, before), Unparsed(parse, payloads), n);
      SetGrows(Acknowledged(parse, enc, before, answers), Acknowledged(parse, enc, payloads, answers), n);
      SetGrows(Unpublished(parse, enc, before, answers), Unpublished(parse, enc, payloads, answers), n);
    } else {
      assert Unparsed(parse, payloads) == Acknowledged(parse, enc, payloads, answers)
          == Unpublished(parse, enc, payloads, answers) == {};
    }
  }

  /** The topic grows by the encodings of the payloads at `f`, in their order and
      each at most once; every acknowledged one is among them. */
  lemma {:induction false} HandledLog(parse: Parser, enc: Encoder, b: Books, payloads: seq<Bytes>,
                                      answers: seq<Answer>) returns (f: seq<nat>)
    ensures forall i, j :: 0 <= i < j < |f| ==> f[i] < f[j]
    ensures var log := HandleAll(parse, enc, b, payloads, answers).log;
            && b.log <= log && |log| == |b.log| + |f|
            && forall i :: 0 <= i < |f| ==> f[i] < |payloads| && parse(payloads[f[i]]).Some?
                                            && enc(parse(payloads[f[i]]).value) == Some(log[|b.log| + i])
    ensures forall k :: k in Acknowledged(parse, enc, payloads, answers) ==> k in f
  {
    f := [];
    if payloads != [] {
      var n := |payloads| - 1;
      f := HandledLog(parse, enc, b, payloads[..n], answers);
      assert forall k :: 0 <= k < n ==> payloads[..n][k] == payloads[k];
      var before := HandleAll(parse, enc, b, payloads[..n], answers).log;
      var after := HandleAll(parse, enc, b, payloads, answers).log;
      PublishOne(before, enc, parse(payloads[n]), AnswerAt(answers, n));
      if after != before {
        f := f + [n];
      }
    }
  }

  /** Each job handled is counted once, and each counted as published is in the
      topic: the topic grows by at least the published count. */
  lemma {:induction false} HandledOnce(parse: Parser, enc: Encoder, b: Books, payloads: seq<Bytes>, answers: seq<Answer>)
    ensures var r := HandleAll(parse, enc, b, payloads, answers);
            && (r.parseErrors - b.parseErrors) + (r.publishErrors - b.publishErrors) + (r.published - b.published)
               == |payloads|
            && b.log <= r.log
            && |r.log| - |b.log| >= r.published - b.published
  {
    if payloads != [] {
      HandledOnce(parse, enc, b, payloads[..|payloads| - 1], answers);
    }
  }

  ghost function Texts(items: seq<Job>): (q: seq<Bytes>)
    reads set j | j in items :: j.payload
    ensures |q| == |items|
    ensures forall i :: 0 <= i < |items| ==> q[i] == items[i].payload[..]
  {
    seq(|items|, i requires 0 <= i < |items| reads set j | j in items :: j.payload => items[i].payload[..])
  }

  /** The bytes of the given slices. */
  ghost function Contents(raws: seq<array<byte>>): (xs: seq<Bytes>)
    reads raws
    ensures |xs| == |raws|
    ensures forall i :: 0 <= i < |raws| ==> xs[i] == raws[i][..]
  {
    seq(|raws|, i requires 0 <= i < |raws| reads raws => raws[i][..])
  }

  /** The counters after an offer. */
  function Plus(c: Counts, r: Offered): Counts {
    c.(ingested := c.ingested + r.accepted, full := c.full + r.drops,
       empty := c.empty + if r.err == Some(NonRetryable) then 1 else 0)
  }

  lemma EnqueueTexts(items: seq<Job>, capacity: nat, evicts: bool, j: Job)
    ensures var r := Enqueue(items, capacity, evicts, j);
            Enqueue(Texts(items), capacity, evicts, j.payload[..]) == Enqueued(Texts(r.queue), r.ok, r.drops)
  {
  }

  /** How Shutdown wakes up: the deadline, or a tick before which the workers
      took and handled some jobs. */
  datatype Wake = Deadline | Tick(handled: nat)

  /** What the workers take before the deadline, if there is enough. */
  function TakenByTicks(wakes: seq<Wake>): nat {
    if wakes == [] || wakes[0].Deadline? then 0 else wakes[0].handled + TakenByTicks(wakes[1..])
  }

  // ---- the service -----------------------------------------------------------

  class Service {
    const ch: Channel
    const pool: BufferPool
    const m: Metrics
    const publisher: Writer
    const parse: Parser
    const cfg: BackpressureConfig

    constructor (parse: Parser, publisher: Writer, m: Metrics, cfg: BackpressureConfig, numCpu: nat)
      requires numCpu > 0
      ensures Valid() && fresh(ch) && fresh(pool) && pool.free == []
      ensures this.parse == parse && this.publisher == publisher && this.m == m
      ensures ch.capacity == this.cfg.channelCapacity == if cfg.channelCapacity > 0 then cfg.channelCapacity else 10_000
      ensures this.cfg.workerCount
           == if cfg.channelCapacity > 0 && cfg.workerCount > 0 then cfg.workerCount else numCpu * 2
      ensures this.cfg.highWatermark
           == if cfg.channelCapacity > 0 && cfg.highWatermark > 0.0 then cfg.highWatermark else 0.8
      ensures Evicts(this.cfg) <==> cfg.channelCapacity > 0 && cfg.dropPolicy == "drop_oldest"
      ensures Queued() == [] && !ch.closed
    {
      NormalizeUsable(cfg, numCpu);
      this.cfg := Normalize(cfg, numCpu);
      this.ch := new Channel(Normalize(cfg, numCpu).channelCapacity);
      this.pool := new BufferPool();
      this.m := m;
      this.publisher := publisher;
      this.parse := parse;
    }

    /** What Ingest writes: the channel, the counters, the pool and its buffers. */
    ghost function Footprint(): set<object>
      reads pool
    {
      {ch, m} + pool.Repr
    }

    /** Queued payloads share nothing with what Ingest writes. */
    ghost predicate Valid()
      reads ch, pool, pool.Repr
    {
      && 0 < ch.capacity && |ch.items| <= ch.capacity
      && pool.Valid()
      && ch !in pool.Repr && m !in pool.Repr
      && forall j :: j in ch.items ==> j.payload !in Footprint()
    }

    ghost function Payloads(): set<object>
      reads ch
    {
      set j | j in ch.items :: j.payload as object
    }

    /** The callers' slices are outside of what Ingest writes. */
    ghost predicate Apart(raws: seq<array<byte>>)
      reads pool
    {
      forall r :: r in raws ==> r !in Footprint()
    }

    /** The bytes of the queued payloads, oldest first. */
    ghost function Queued(): (q: seq<Bytes>)
      reads ch, Payloads()
      ensures |q| == |ch.items|
      ensures forall i :: 0 <= i < |q| ==> q[i] == ch.items[i].payload[..]
    {
      Texts(ch.items)
    }

    method EnqueueJob(j: Job) returns (ok: bool, panicked: bool)
      modifies ch`items, m
      ensures panicked == ch.closed && (panicked ==> !ok)
      ensures panicked ==> ch.items == old(ch.items) && m.Now() == old(m.Now())
      ensures !panicked ==>
                var r := Enqueue(old(ch.items), ch.capacity, Evicts(cfg), j);
                && ch.items == r.queue && ok == r.ok
                && m.Now() == old(m.Now()).(full := old(m.full) + r.drops)
    {
      if cfg.dropPolicy == DROP_OLDEST {
        var r := ch.TrySend(j);
        if r != Full {
          return r == Sent, r == Panics;
        }
        var evicted := ch.TryReceive();
        if evicted {
          m.full := m.full + 1;
        }
        r := ch.TrySend(j);
        if r != Full {
          return r == Sent, r == Panics;
        }
        m.full := m.full + 1;
        return false, false;
      } else {
        var r := ch.TrySend(j);
        if r != Full {
          return r == Sent, r == Panics;
        }
        m.full := m.full + 1;
        return false, false;
      }
    }

    method CopyPayload(raw: array<byte>, pick: nat) returns (payload: array<byte>)
      requires Valid() && raw !in Footprint()
      modifies pool.Repr
      ensures Valid() && fresh(pool.Repr - old(pool.Repr)) && Queued() == old(Queued())
      ensures fresh(payload) && payload !in Footprint() && payload[..] == old(raw[..])
    {
      ghost var used;
      payload, used := pool.CopyPayload(raw, pick);
    }

    /** Enqueues a job whose payload nobody else holds. */
    method Submit(j: Job) returns (ok: bool, panicked: bool)
      requires Valid() && j.payload !in Footprint()
      modifies ch`items, m
      ensures Valid() && Payloads() <= old(Payloads()) + {j.payload}
      ensures panicked == ch.closed && (panicked ==> !ok)
      ensures panicked ==> Queued() == old(Queued()) && m.Now() == old(m.Now())
      ensures !panicked ==>
                var r := Enqueue(old(Queued()), ch.capacity, Evicts(cfg), j.payload[..]);
                && Queued() == r.queue && ok == r.ok
                && m.Now() == old(m.Now()).(full := old(m.full) + r.drops)
    {
      ghost var items := ch.items;
      ok, panicked := EnqueueJob(j);
      assert Texts(items) == old(Queued());
      EnqueueTexts(items, ch.capacity, Evicts(cfg), j);
    }

    method CountEmpty()
      requires Valid()
      modifies m
      ensures Valid() && Queued() == old(Queued())
      ensures m.Now() == old(m.Now()).(empty := old(m.empty) + 1)
    {
      m.empty := m.empty + 1;
    }

    method CountIngested()
      requires Valid()
      modifies m
      ensures Valid() && Queued() == old(Queued())
      ensures m.Now() == old(m.Now()).(ingested := old(m.ingested) + 1)
    {
      m.ingested := m.ingested + 1;
    }

    /** Enqueues a job with a non-empty payload and counts it. */
    method Accept(j: Job) returns (err: Option<Error>, panicked: bool)
      requires Valid() && j.payload !in Footprint() && j.payload.Length > 0
      modifies ch`items, m
      ensures Valid() && Payloads() <= old(Payloads()) + {j.payload}
      ensures panicked == ch.closed
      ensures panicked ==> Queued() == old(Queued()) && m.Now() == old(m.Now())
      ensures !panicked ==> OfferedOne(old(Queued()), old(m.Now()), old(j.payload[..]), err)
      ensures !panicked ==>
                && m.empty == old(m.empty) && (err == None <==> old(|ch.items|) < ch.capacity || Evicts(cfg))
                && (err == None ==> m.ingested == old(m.ingested) + 1
                                    && m.full == old(m.full) + if old(|ch.items|) < ch.capacity then 0 else 1)
                && (err != None ==> err == Some(QueueSaturated)
                                    && m.ingested == old(m.ingested) && m.full == old(m.full) + 1)
      ensures m.parseErrors == old(m.parseErrors) && m.publishErrors == old(m.publishErrors)
      ensures m.published == old(m.published)
    {
      var ok;
      ok, panicked := Submit(j);
      if ok {
        CountIngested();
      }
      err := if ok || panicked then None else Some(QueueSaturated);
    }

    /** What offering x, from the queue q and the counters c, has led to. */
    ghost predicate OfferedOne(q: seq<Bytes>, c: Counts, x: Bytes, err: Option<Error>)
      reads ch, Payloads(), m
    {
      var r := OfferOne(q, ch.capacity, Evicts(cfg), x);
      Queued() == r.queue && err == r.err && m.Now() == Plus(c, r)
    }

    /** Accepts one payload. `pick` is the pool's choice of buffer. */
    method Ingest(raw: array<byte>, pick: nat) returns (err: Option<Error>, panicked: bool)
      requires Valid() && raw !in Footprint()
      modifies Footprint()
      ensures Valid() && ch.closed == old(ch.closed)
      ensures fresh(Footprint() - old(Footprint())) && fresh(Payloads() - old(Payloads()))
      ensures panicked <==> ch.closed && raw.Length > 0
      ensures panicked ==> Queued() == old(Queued()) && m.Now() == old(m.Now())
      ensures !panicked ==> OfferedOne(old(Queued()), old(m.Now()), old(raw[..]), err)
      ensures raw.Length == 0 ==>
                && err == Some(NonRetryable) && Queued() == old(Queued())
                && m.empty == old(m.empty) + 1 && m.full == old(m.full) && m.ingested == old(m.ingested)
      ensures raw.Length > 0 && !panicked ==>
                && m.empty == old(m.empty) && (err == None <==> old(|ch.items|) < ch.capacity || Evicts(cfg))
                && (err == None ==> m.ingested == old(m.ingested) + 1
                                    && m.full == old(m.full) + if old(|ch.items|) < ch.capacity then 0 else 1)
                && (err != None ==> err == Some(QueueSaturated)
                                    && m.ingested == old(m.ingested) && m.full == old(m.full) + 1)
      ensures panicked ==> m.empty == old(m.empty) && m.full == old(m.full) && m.ingested == old(m.ingested)
      ensures m.parseErrors == old(m.parseErrors) && m.publishErrors == old(m.publishErrors)
      ensures m.published == old(m.published)
    {
      if raw.Length == 0 {
        CountEmpty();
        return Some(NonRetryable), false;
      }
      var payload := CopyPayload(raw, pick);
      err, panicked := Accept(Job(payload, "http"));
    }

    /** Offers the payloads in turn, up to the first error. */
    method IngestBatch(raws: seq<array<byte>>, picks: nat -> nat) returns (err: Option<Error>, panicked: bool)
      requires Valid() && Apart(raws)
      modifies Footprint()
      ensures Valid() && ch.closed == old(ch.closed)
      ensures fresh(Footprint() - old(Footprint())) && fresh(Payloads() - old(Payloads()))
      ensures panicked <==> ch.closed && raws != [] && raws[0].Length > 0
      ensures panicked ==> Queued() == old(Queued()) && m.Now() == old(m.Now())
      ensures !panicked ==>
                Offering(old(Queued()), old(m.Now()), old(Contents(raws)), err)
      ensures !panicked ==>
                BatchCounts(old(m.Now()), m.Now(), err, old(Contents(raws)),
                            Offer(old(Queued()), ch.capacity, Evicts(cfg), old(Contents(raws))).drops)
      ensures panicked ==> m.empty == old(m.empty) && m.full == old(m.full) && m.ingested == old(m.ingested)
    {
      ghost var xs, q, c := Contents(raws), Queued(), m.Now();
      assert xs[..0] == [];
      err, panicked := None, false;
      var i := 0;
      while i < |raws|
        invariant 0 <= i <= |raws|
        invariant Valid() && ch.closed == old(ch.closed) && (i > 0 ==> !ch.closed)
        invariant fresh(Footprint() - old(Footprint())) && fresh(Payloads() - old(Payloads()))
        invariant Contents(raws) == xs && Apart(raws) && Offering(q, c, xs[..i], None)
        invariant err == None && !panicked
      {
        err, panicked := IngestNext(raws, i, picks(i), q, c, xs);
        if panicked || err.Some? {
          break;
        }
        i := i + 1;
      }
      if !panicked {
        BatchEnds(q, c, xs, i, err);
      }
    }

    /** What offering xs, from the queue q and the counters c, has led to. */
    ghost predicate Offering(q: seq<Bytes>, c: Counts, xs: seq<Bytes>, err: Option<Error>)
      reads ch, Payloads(), m
    {
      var r := Offer(q, ch.capacity, Evicts(cfg), xs);
      Queued() == r.queue && err == r.err && m.Now() == Plus(c, r)
    }

    lemma BatchEnds(q: seq<Bytes>, c: Counts, xs: seq<Bytes>, i: nat, err: Option<Error>)
      requires i <= |xs| && (err.Some? ==> i < |xs|) && (err.None? ==> i == |xs|)
      requires Offering(q, c, if err.Some? then xs[..i + 1] else xs[..i], err)
      ensures Offering(q, c, xs, err)
      ensures BatchCounts(c, m.Now(), err, xs, Offer(q, ch.capacity, Evicts(cfg), xs).drops)
    {
      OfferEnds(q, ch.capacity, Evicts(cfg), xs, i, err, c);
    }

    /** One turn of the batch loop. */
    method IngestNext(raws: seq<array<byte>>, i: nat, pick: nat, ghost q: seq<Bytes>, ghost c: Counts,
                      ghost xs: seq<Bytes>)
      returns (err: Option<Error>, panicked: bool)
      requires Valid() && i < |raws| && Contents(raws) == xs && Apart(raws)
      requires Offering(q, c, xs[..i], None)
      modifies Footprint()
      ensures Valid() && ch.closed == old(ch.closed) && Contents(raws) == xs && Apart(raws)
      ensures fresh(Footprint() - old(Footprint())) && fresh(Payloads() - old(Payloads()))
      ensures panicked <==> ch.closed && raws[i].Length > 0
      ensures panicked ==> Queued() == old(Queued()) && m.Now() == old(m.Now())
      ensures !panicked ==> Offering(q, c, xs[..i + 1], err)
    {
      assert raws[i] in raws;
      err, panicked := Ingest(raws[i], pick);
      OfferSnoc(q, ch.capacity, Evicts(cfg), xs, i, c);
    }

    // ---- workers and shutdown ------------------------------------------------

    ghost function BooksNow(): (b: Books)
      reads m, publisher
      ensures b.log == publisher.log && b.parseErrors == m.parseErrors
      ensures b.publishErrors == m.publishErrors && b.published == m.published
    {
      Books(publisher.log, m.parseErrors, m.publishErrors, m.published)
    }

    method HandleJob(job: Job, answer: Answer)
      modifies m, publisher
      ensures BooksNow() == Handle(parse, publisher.encode, old(BooksNow()), job.payload[..], answer)
      ensures var log, errs := old(publisher.log), (m.parseErrors - old(m.parseErrors),
                                                    m.publishErrors - old(m.publishErrors),
                                                    m.published - old(m.published));
              match parse(job.payload[..])
              case None => publisher.log == log && errs == (1, 0, 0)
              case Some(ev) =>
                match publisher.encode(ev)
                case None => publisher.log == log && errs == (0, 1, 0)
                case Some(x) =>
                  if answer.Acked? then publisher.log == log + [x] && errs == (0, 0, 1)
                  else (publisher.log == log || publisher.log == log + [x]) && errs == (0, 1, 0)
      ensures m.IngestSide() == old(m.IngestSide())
    {
      PublishOne(old(publisher.log), publisher.encode, parse(job.payload[..]), answer);
      var ev := parse(job.payload[..]);
      if ev.None? {
        m.parseErrors := m.parseErrors + 1;
        return;
      }
      EncodeOne(publisher.encode, ev.value);
      var ok := publisher.Publish([ev.value], answer);
      if !ok {
        m.publishErrors := m.publishErrors + 1;
        return;
      }
      m.published := m.published + 1;
    }

    /** Of the jobs `items`, holding the texts `q`, the first `done` are handled
        and the rest is queued. */
    ghost predicate Working(items: seq<Job>, q: seq<Bytes>, b: Books, answers: seq<Answer>, done: nat)
      reads ch, m, publisher, Payloads()
    {
      && |items| == |q| && done <= |q|
      && ch.items == items[done..] && Queued() == q[done..]
      && BooksNow() == HandleAll(parse, publisher.encode, b, q[..done], answers)
    }

    /** A worker's loop over the channel, until it is empty; `done` of the jobs
        were handled before. */
    method WorkerLoop(done: nat, answers: seq<Answer>, ghost items: seq<Job>, ghost q: seq<Bytes>, ghost b: Books)
      requires Working(items, q, b, answers, done)
      modifies ch`items, m, publisher
      ensures Working(items, q, b, answers, |q|) && ch.items == []
      ensures m.IngestSide() == old(m.IngestSide())
    {
      var handled := done;
      while ch.items != []
        invariant Working(items, q, b, answers, handled)
        invariant m.IngestSide() == old(m.IngestSide())
        decreases |q| - handled
      {
        HandleNext(handled, answers, items, q, b);
        handled := handled + 1;
      }
    }

    /** What the workers get done between two wake-ups of Shutdown: at most
        `turns` turns of the loop. */
    method WorkMeanwhile(turns: nat, done: nat, answers: seq<Answer>,
                      ghost items: seq<Job>, ghost q: seq<Bytes>, ghost b: Books)
      returns (handled: nat)
      requires Working(items, q, b, answers, done)
      modifies ch`items, m, publisher
      ensures Working(items, q, b, answers, handled)
      ensures done <= handled <= done + turns && (handled == |q| || handled == done + turns)
      ensures m.IngestSide() == old(m.IngestSide())
    {
      handled := done;
      while handled < done + turns && ch.items != []
        invariant Working(items, q, b, answers, handled)
        invariant done <= handled <= done + turns
        invariant m.IngestSide() == old(m.IngestSide())
        decreases done + turns - handled
      {
        HandleNext(handled, answers, items, q, b);
        handled := handled + 1;
      }
    }

    method HandleNext(done: nat, answers: seq<Answer>, ghost items: seq<Job>, ghost q: seq<Bytes>, ghost b: Books)
      requires Working(items, q, b, answers, done) && ch.items != []
      modifies ch`items, m, publisher
      ensures Working(items, q, b, answers, done + 1)
      ensures m.IngestSide() == old(m.IngestSide())
    {
      assert Queued()[0] == q[done] && Queued()[1..] == q[done + 1..];
      var job := ch.Receive();
      assert Queued() == q[done + 1..];
      HandleJob(job, AnswerAt(answers, done));
      assert q[..done + 1][..done] == q[..done];
    }

    /** Shutdown: polls until the channel is empty or the deadline passes, closes
        it and waits for the workers. Either way everything queued is handled.
        `atClose` jobs are queued when the channel is closed: before the deadline
        it is closed only when empty. */
    method Shutdown(wakes: seq<Wake>, answers: seq<Answer>) returns (ghost atClose: nat)
      requires Valid() && !ch.closed
      modifies ch, m, publisher
      ensures atClose == if |old(ch.items)| <= TakenByTicks(wakes) then 0 else |old(ch.items)| - TakenByTicks(wakes)
      ensures ch.closed && ch.items == []
      ensures BooksNow() == HandleAll(parse, publisher.encode, old(BooksNow()), old(Queued()), answers)
      ensures m.IngestSide() == old(m.IngestSide())
    {
      ghost var items, q, b := ch.items, Queued(), BooksNow();
      var done := 0;
      var i := 0;
      while i < |wakes| && wakes[i].Tick?
        invariant 0 <= i <= |wakes| && !ch.closed
        invariant TakenByTicks(wakes) == done + TakenByTicks(wakes[i..])
        invariant Working(items, q, b, answers, done)
        invariant m.IngestSide() == old(m.IngestSide())
      {
        assert wakes[i..][1..] == wakes[i + 1..];
        done := WorkMeanwhile(wakes[i].handled, done, answers, items, q, b);
        if |ch.items| == 0 {
          break;
        }
        i := i + 1;
      }
      ch.closed := true;
      atClose := |ch.items|;
      assert Working(items, q, b, answers, done);
      WorkerLoop(done, answers, items, q, b);
      assert q[..|q|] == q;
    }
  }

  lemma OfferSnoc(queue: seq<Bytes>, capacity: nat, evicts: bool, xs: seq<Bytes>, i: nat, c: Counts)
    requires i < |xs| && Offer(queue, capacity, evicts, xs[..i]).err == None
    ensures var r := Offer(queue, capacity, evicts, xs[..i]);
            var one := OfferOne(r.queue, capacity, evicts, xs[i]);
            var r' := Offer(queue, capacity, evicts, xs[..i + 1]);
            r'.queue == one.queue && r'.err == one.err && Plus(Plus(c, r), one) == Plus(c, r')
  {
    var r := Offer(queue, capacity, evicts, xs[..i]);
    assert xs[..i + 1] == xs[..i] + [xs[i]];
    OfferConcat(queue, capacity, evicts, xs[..i], [xs[i]]);
    OfferSingle(r.queue, capacity, evicts, xs[i]);
  }

  /** What a batch does to the counters: without an error every payload is counted
      as ingested; with one, those before the failing payload, and an empty one as
      empty. The worker side is not touched. */
  ghost predicate BatchCounts(c: Counts, c': Counts, err: Option<Error>, xs: seq<Bytes>, drops: nat)
    ensures BatchCounts(c, c', err, xs, drops) ==>
              && c.ingested <= c'.ingested <= c.ingested + |xs|
              && (err == None <==> c'.ingested == c.ingested + |xs|)
              && (var k := c'.ingested - c.ingested;
                  err != None ==> err == Some(if xs[k] == [] then NonRetryable else QueueSaturated))
              && c'.empty == c.empty + (if err == Some(NonRetryable) then 1 else 0)
              && c'.full == c.full + drops && c'.parseErrors == c.parseErrors
              && c'.publishErrors == c.publishErrors && c'.published == c.published
  {
    && (err == None ==> c'.ingested == c.ingested + |xs|)
    && (err != None ==>
          var k := c'.ingested - c.ingested;
          0 <= k < |xs| && err == Some(if xs[k] == [] then NonRetryable else QueueSaturated))
    && c'.empty == c.empty + (if err == Some(NonRetryable) then 1 else 0)
    && c'.full == c.full + drops && c'.parseErrors == c.parseErrors
    && c'.publishErrors == c.publishErrors && c'.published == c.published
  }

  lemma OfferEnds(queue: seq<Bytes>, capacity: nat, evicts: bool, xs: seq<Bytes>, i: nat, err: Option<Error>, c: Counts)
    requires i <= |xs| && (err.Some? ==> i < |xs|) && (err.None? ==> i == |xs|)
    requires Offer(queue, capacity, evicts, if err.Some? then xs[..i + 1] else xs[..i]).err == err
    ensures var r := Offer(queue, capacity, evicts, xs);
            && r == Offer(queue, capacity, evicts, if err.Some? then xs[..i + 1] else xs[..i])
            && BatchCounts(c, Plus(c, r), err, xs, r.drops)
  {
    OfferAccepts(queue, capacity, evicts, xs);
    if err.Some? {
      OfferStops(queue, capacity, evicts, xs, i + 1);
    } else {
      assert xs[..i] == xs;
    }
  }

  /** An offer ends with the first error. */
  lemma OfferStops(queue: seq<Bytes>, capacity: nat, evicts: bool, xs: seq<Bytes>, i: nat)
    requires i <= |xs| && Offer(queue, capacity, evicts, xs[..i]).err.Some?
    ensures Offer(queue, capacity, evicts, xs) == Offer(queue, capacity, evicts, xs[..i])
  {
    assert xs == xs[..i] + xs[i..];
    OfferConcat(queue, capacity, evicts, xs[..i], xs[i..]);
  }

  lemma OfferSingle(queue: seq<Bytes>, capacity: nat, evicts: bool, x: Bytes)
    ensures Offer(queue, capacity, evicts, [x]) == OfferOne(queue, capacity, evicts, x)
  {
    assert [x][1..] == [];
  }

  // ---- callers that keep and reuse their slices ------------------------------

  /** What callers do: overwrite a slice of theirs, or send a batch of slices,
      any of them any number of times. */
  datatype Act = Overwrite(slice: nat, text: Bytes) | Batch(slices: seq<nat>)

  /** What the slices hold, what is queued, and what the batches returned. */
  datatype Scene = Scene(slices: seq<Bytes>, queue: seq<Bytes>, errs: seq<Option<Error>>)

  predicate Fits(slices: seq<Bytes>, act: Act) {
    match act
    case Overwrite(k, text) => k < |slices| && |text| == |slices[k]|
    case Batch(ks) => forall i :: 0 <= i < |ks| ==> ks[i] < |slices|
  }

  function Pick<T>(xs: seq<T>, ks: seq<nat>): (r: seq<T>)
    requires forall i :: 0 <= i < |ks| ==> ks[i] < |xs|
    ensures |r| == |ks| && forall i :: 0 <= i < |ks| ==> r[i] == xs[ks[i]]
  {
    seq(|ks|, i requires 0 <= i < |ks| => xs[ks[i]])
  }

  /** Every payload is queued as the bytes its slice held when it was sent. */
  function Acted(sc: Scene, capacity: nat, evicts: bool, act: Act): Scene {
    if !Fits(sc.slices, act) then sc
    else
      match act
      case Overwrite(k, text) => sc.(slices := sc.slices[k := text])
      case Batch(ks) =>
        var r := Offer(sc.queue, capacity, evicts, Pick(sc.slices, ks));
        sc.(queue := r.queue, errs := sc.errs + [r.err])
  }

  predicate AllFit(slices: seq<Bytes>, acts: seq<Act>) {
    forall i :: 0 <= i < |acts| ==> Fits(slices, acts[i])
  }

  function ActedAll(sc: Scene, capacity: nat, evicts: bool, acts: seq<Act>): Scene
    decreases |acts|
  {
    if acts == [] then sc else ActedAll(Acted(sc, capacity, evicts, acts[0]), capacity, evicts, acts[1..])
  }

  lemma RestFits(sc: Scene, capacity: nat, evicts: bool, acts: seq<Act>)
    requires AllFit(sc.slices, acts) && acts != []
    ensures Fits(sc.slices, acts[0])
    ensures AllFit(Acted(sc, capacity, evicts, acts[0]).slices, acts[1..])
  {
    var rest := acts[1..];
    forall i | 0 <= i < |rest| ensures Fits(Acted(sc, capacity, evicts, acts[0]).slices, rest[i]) {
      assert rest[i] == acts[i + 1];
    }
  }

  /** The callers' slices are theirs alone. */
  ghost predicate Theirs(s: Service, raws: seq<array<byte>>)
    reads s.pool, s.ch
  {
    && (forall r :: r in raws ==> r !in s.Footprint() && r !in s.Payloads())
    && (forall i, j :: 0 <= i < j < |raws| ==> raws[i] != raws[j])
  }

  ghost function SceneNow(s: Service, raws: seq<array<byte>>, errs: seq<Option<Error>>): Scene
    reads s.ch, s.Payloads(), raws
  {
    Scene(Contents(raws), s.Queued(), errs)
  }

  /** Overwrites a slice the service does not hold. */
  method Fill(s: Service, raws: seq<array<byte>>, k: nat, text: Bytes)
    requires s.Valid() && Theirs(s, raws) && Fits(Contents(raws), Overwrite(k, text))
    modifies raws[k]
    ensures s.Valid() && s.Queued() == old(s.Queued())
    ensures Contents(raws) == old(Contents(raws))[k := text]
  {
    var raw := raws[k];
    assert raw in raws;
    forall i | 0 <= i < raw.Length {
      raw[i] := text[i];
    }
    assert raw[..] == text;
    forall j | 0 <= j < |raws| && j != k ensures raws[j] != raw && raws[j][..] == old(Contents(raws))[j] {
      assert raws[if j < k then j else k] != raws[if j < k then k else j];
    }
  }

  /** Sends the chosen slices as one batch. */
  method SendBatch(s: Service, raws: seq<array<byte>>, ks: seq<nat>, picks: nat -> nat) returns (err: Option<Error>)
    requires s.Valid() && !s.ch.closed && Theirs(s, raws) && Fits(Contents(raws), Batch(ks))
    modifies s.Footprint()
    ensures s.Valid() && !s.ch.closed && Theirs(s, raws)
    ensures fresh(s.Footprint() - old(s.Footprint()))
    ensures Contents(raws) == old(Contents(raws))
    ensures var r := Offer(old(s.Queued()), s.ch.capacity, Evicts(s.cfg), Pick(old(Contents(raws)), ks));
            s.Queued() == r.queue && err == r.err
  {
    var batch := Pick(raws, ks);
    forall r | r in batch ensures r in raws {
      var i :| 0 <= i < |batch| && batch[i] == r;
      assert raws[ks[i]] == r;
    }
    assert Contents(batch) == Pick(Contents(raws), ks);
    var panicked;
    err, panicked := s.IngestBatch(batch, picks);
  }

  method RunOne(s: Service, raws: seq<array<byte>>, act: Act, picks: nat -> nat, errs: seq<Option<Error>>)
    returns (errs': seq<Option<Error>>)
    requires s.Valid() && !s.ch.closed && Theirs(s, raws) && Fits(Contents(raws), act)
    modifies s.Footprint(), raws
    ensures s.Valid() && !s.ch.closed && Theirs(s, raws)
    ensures fresh(s.Footprint() - old(s.Footprint()))
    ensures SceneNow(s, raws, errs') == Acted(old(SceneNow(s, raws, errs)), s.ch.capacity, Evicts(s.cfg), act)
  {
    errs' := errs;
    match act {
      case Overwrite(k, text) =>
        assert raws[k] in raws;
        Fill(s, raws, k, text);
      case Batch(ks) =>
        var err := SendBatch(s, raws, ks, picks);
        errs' := errs + [err];
    }
  }

  /** Payload isolation: whatever callers do to their slices before, between and
      after batches, and whatever buffers the pool reuses, what is queued is what
      the slices held when each batch was sent. */
  method RunCallers(s: Service, raws: seq<array<byte>>, acts: seq<Act>, picks: nat -> nat, errs: seq<Option<Error>>)
    returns (errs': seq<Option<Error>>)
    requires s.Valid() && !s.ch.closed && Theirs(s, raws) && AllFit(Contents(raws), acts)
    modifies s.Footprint(), raws
    ensures s.Valid() && !s.ch.closed
    ensures SceneNow(s, raws, errs') == ActedAll(old(SceneNow(s, raws, errs)), s.ch.capacity, Evicts(s.cfg), acts)
    decreases |acts|
  {
    if acts == [] {
      return errs;
    }
    RestFits(SceneNow(s, raws, errs), s.ch.capacity, Evicts(s.cfg), acts);
    errs' := RunOne(s, raws, acts[0], picks, errs);
    errs' := RunCallers(s, raws, acts[1..], picks, errs');
  }
}
