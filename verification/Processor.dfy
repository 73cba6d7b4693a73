/** The default event-to-point mapping. */
module Processor {
  import opened Domain
  import opened Storage

  function Process(e: LogEvent): MetricPoint {
    MetricPoint(
      "vsan_api",
      map["source" := e.source, "tenant" := e.tenant, "api" := e.apiName],
      map["latency_ms" := FloatField(e.latencyMs), "status_code" := IntField(e.statusCode)],
      e.timestamp)
  }

  function ProcessAll(es: seq<LogEvent>): (pts: seq<MetricPoint>)
    ensures |pts| == |es|
    ensures forall i :: 0 <= i < |es| ==> pts[i] == Process(es[i])
  {
    seq(|es|, i requires 0 <= i < |es| => Process(es[i]))
  }

  method ProcessBatch(events: seq<LogEvent>) returns (out: seq<MetricPoint>)
    ensures out == ProcessAll(events)
  {
    out := [];
    for i := 0 to |events|
      invariant out == ProcessAll(events[..i])
    {
      out := out + [Process(events[i])];
    }
    assert events[..|events|] == events;
  }

  /** Reads an event back from a point of the default mapping. */
  function ReadBack(p: MetricPoint): Option<LogEvent> {
    if p.measurement == "vsan_api"
       && p.tags.Keys == {"source", "tenant", "api"} && p.fields.Keys == {"latency_ms", "status_code"}
       && p.fields["latency_ms"].FloatField? && p.fields["status_code"].IntField?
    then
      Some(LogEvent(p.time, p.tags["source"], p.tags["tenant"], p.tags["api"],
                    p.fields["latency_ms"].f, p.fields["status_code"].n, map[]))
    else None
  }

  /** The point carries everything of the event but its raw metadata, each value
      under its own name; and every point that reads back is such a point. */
  lemma ProcessRoundTrip(e: LogEvent, p: MetricPoint)
    ensures Process(e).measurement == "vsan_api" && Process(e).time == e.timestamp
    ensures Process(e).tags.Keys == {"source", "tenant", "api"}
    ensures Process(e).tags["source"] == e.source && Process(e).tags["tenant"] == e.tenant
            && Process(e).tags["api"] == e.apiName
    ensures Process(e).fields.Keys == {"latency_ms", "status_code"}
    ensures Process(e).fields["latency_ms"] == FloatField(e.latencyMs)
            && Process(e).fields["status_code"] == IntField(e.statusCode)
    ensures ReadBack(Process(e)) == Some(e.(rawMeta := map[]))
    ensures ReadBack(p).Some? ==> Process(ReadBack(p).value) == p
  {
    assert Process(e).tags.Keys == {"source", "tenant", "api"};
    assert Process(e).fields.Keys == {"latency_ms", "status_code"};
    if ReadBack(p).Some? {
      var q := Process(ReadBack(p).value);
      assert q.tags == p.tags && q.fields == p.fields;
    }
  }

  predicate SameKey(e: LogEvent, f: LogEvent) {
    e.source == f.source && e.tenant == f.tenant && e.apiName == f.apiName && e.timestamp == f.timestamp
  }

  lemma ProcessTags(e: LogEvent, f: LogEvent)
    ensures Process(e).tags == Process(f).tags
            <==> e.source == f.source && e.tenant == f.tenant && e.apiName == f.apiName
  {
    var p, q := Process(e).tags, Process(f).tags;
    assert p["source"] == e.source && p["tenant"] == e.tenant && p["api"] == e.apiName;
    assert q["source"] == f.source && q["tenant"] == f.tenant && q["api"] == f.apiName;
  }

  lemma CellsOfEvent(e: LogEvent, c: Cell)
    ensures c in Cells(Process(e))
            <==> c.measurement == "vsan_api" && c.tags == Process(e).tags && c.time == e.timestamp
                 && c.field in {"latency_ms", "status_code"}
  {
    var p := Process(e);
    assert p.fields.Keys == {"latency_ms", "status_code"};
    if c.measurement == "vsan_api" && c.tags == p.tags && c.time == e.timestamp && c.field in p.fields.Keys {
      assert c == Cell(p.measurement, p.tags, p.time, c.field);
    }
  }

  lemma SharedCell(e: LogEvent, f: LogEvent, c: Cell)
    requires c in Cells(Process(e))
    ensures c in Cells(Process(f)) <==> SameKey(e, f)
  {
    CellsOfEvent(e, c);
    CellsOfEvent(f, c);
    ProcessTags(e, f);
  }

  lemma KeysMeet(e: LogEvent, f: LogEvent)
    ensures SameKey(e, f) <==> Cells(Process(e)) * Cells(Process(f)) != {}
  {
    var c := Cell("vsan_api", Process(e).tags, e.timestamp, "latency_ms");
    CellsOfEvent(e, c);
    SharedCell(e, f, c);
    if SameKey(e, f) {
      assert c in Cells(Process(e)) * Cells(Process(f));
    } else {
      forall d | d in Cells(Process(e)) ensures d !in Cells(Process(f)) {
        SharedCell(e, f, d);
      }
    }
  }

  lemma SameKeyReplaces(s: Store, e: LogEvent, f: LogEvent)
    requires SameKey(e, f)
    ensures Upsert(Upsert(s, Process(e)), Process(f)) == Upsert(s, Process(f))
  {
    var p, q := Process(e), Process(f);
    forall c ensures At(Upsert(Upsert(s, p), q), c) == At(Upsert(s, q), c) {
      CellsOfEvent(e, c);
      CellsOfEvent(f, c);
      ProcessTags(e, f);
      UpsertAt(Upsert(s, p), q, c);
      UpsertAt(s, p, c);
      UpsertAt(s, q, c);
    }
    SameStore(Upsert(Upsert(s, p), q), Upsert(s, q));
  }

  lemma OtherKeysCommute(s: Store, e: LogEvent, f: LogEvent)
    requires !SameKey(e, f)
    ensures Upsert(Upsert(s, Process(e)), Process(f)) == Upsert(Upsert(s, Process(f)), Process(e))
  {
    var p, q := Process(e), Process(f);
    forall c ensures At(Upsert(Upsert(s, p), q), c) == At(Upsert(Upsert(s, q), p), c) {
      if c in Cells(p) {
        SharedCell(e, f, c);
      }
      UpsertAt(Upsert(s, p), q, c);
      UpsertAt(s, p, c);
      UpsertAt(Upsert(s, q), p, c);
      UpsertAt(s, q, c);
    }
    SameStore(Upsert(Upsert(s, p), q), Upsert(Upsert(s, q), p));
  }

  /** Two events meet in the store exactly when source, tenant, API and time
      agree, and then the later one replaces the earlier one completely. */
  lemma KeyOfProcess(s: Store, e: LogEvent, f: LogEvent)
    ensures SameKey(e, f) <==> Cells(Process(e)) * Cells(Process(f)) != {}
    ensures SameKey(e, f) ==> Upsert(Upsert(s, Process(e)), Process(f)) == Upsert(s, Process(f))
    ensures !SameKey(e, f) ==>
              Upsert(Upsert(s, Process(e)), Process(f)) == Upsert(Upsert(s, Process(f)), Process(e))
  {
    KeysMeet(e, f);
    if SameKey(e, f) {
      SameKeyReplaces(s, e, f);
    } else {
      OtherKeysCommute(s, e, f);
    }
  }
}
