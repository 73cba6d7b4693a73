/** A call that nobody interrupts: the state machine's three channel operations
    collapse to the list operation of IngestSpec. */
module CollectorSequential {
  import opened Domain
  import opened CollectorModel
  import opened CollectorFates
  import opened IngestSpec

  ghost predicate Joined(a: State, b: State) {
    exists steps :: Path(a, steps, b)
  }

  lemma Extend(a: State, s: State, step: Step)
    requires Joined(a, s) && Enabled(s, step)
    ensures Joined(a, Next(s, step))
  {
    var xs :| Path(a, xs, s);
    OneStep(s, step);
    PathJoins(a, s, Next(s, step), xs, [step]);
  }

  /** Nothing but the new call, the channel and its counters has changed. */
  ghost predicate OnlyCall(s: State, t: State, raw: Bytes) {
    && t.payloads == s.payloads + [raw] && |t.calls| == |s.calls| + 1 && t.calls[..|s.calls|] == s.calls
    && t.workers == s.workers && t.finished == s.finished && t.shutdown == s.shutdown && !t.closed
    && t.capacity == s.capacity && t.evicts == s.evicts
    && t.counters == s.counters.(empty := t.counters.empty, full := t.counters.full, ingested := t.counters.ingested)
  }

  lemma SendAlone(a: State, s: State, i: nat, route: Route)
    requires Joined(a, s) && Shape(s) && i < |s.calls| && !s.closed && |s.queue| < s.capacity
    requires s.calls[i] == (if route == Direct then FirstSend else RetrySend(route))
    ensures var t := Send(s, i, route);
            Joined(a, Goto(t, i, Accepted(route)).(counters := t.counters.(ingested := t.counters.ingested + 1)))
  {
    Extend(a, s, Producer(i));
    Extend(a, Send(s, i, route), Producer(i));
  }

  lemma EvictAlone(a: State, s: State, i: nat) returns (t: State)
    requires Joined(a, s) && Shape(s) && i < |s.calls| && !s.closed && s.evicts
    requires s.calls[i] == FirstSend && |s.queue| >= s.capacity > 0
    ensures Joined(a, t) && Shape(t) && i < |t.calls| && t.calls == s.calls[i := RetrySend(AfterEviction)]
    ensures t == s.(calls := t.calls, queue := s.queue[1..], departed := t.departed, mark := t.mark,
                    counters := s.counters.(full := s.counters.full + 1))
  {
    Extend(a, s, Producer(i));
    var s1 := Goto(s, i, MiddleSelect);
    Extend(a, s1, Producer(i));
    var s2 := Evict(s1, i);
    Extend(a, s2, Producer(i));
    t := Next(s2, Producer(i));
    assert t.calls == s.calls[i := RetrySend(AfterEviction)];
  }

  lemma BeginAlone(s: State, raw: Bytes)
    ensures Joined(s, Next(s, Begin(raw)))
  {
    OneStep(s, Begin(raw));
  }

  lemma RejectAlone(a: State, s: State, i: nat)
    requires Joined(a, s) && Shape(s) && i < |s.calls| && !s.closed && !s.evicts
    requires s.calls[i] == FirstSend && |s.queue| >= s.capacity
    ensures Joined(a, Goto(s, i, Saturated(Direct)).(counters := s.counters.(full := s.counters.full + 1)))
  {
    Extend(a, s, Producer(i));
    var s1 := Goto(s, i, CountReject(Direct));
    Extend(a, s1, Producer(i));
    assert s1.calls[i := Saturated(Direct)] == s.calls[i := Saturated(Direct)];
  }

  lemma RefuseAlone(s: State, raw: Bytes)
    requires Shape(s) && raw == []
    ensures Joined(s, Goto(Next(s, Begin(raw)), |s.calls|, Refused).(counters := s.counters.(empty := s.counters.empty + 1)))
  {
    BeginAlone(s, raw);
    Extend(s, Next(s, Begin(raw)), Producer(|s.calls|));
  }

  /** An uninterrupted Ingest is the list operation: same channel, same verdict,
      same drops; an empty payload is refused and counted. */
  lemma SoloIngestIsEnqueue(s: State, raw: Bytes) returns (t: State)
    requires Shape(s) && !s.closed && |s.queue| <= s.capacity && s.capacity > 0
    ensures Joined(s, t) && OnlyCall(s, t, raw)
    ensures raw == [] ==>
              && t.queue == s.queue && t.calls[|s.calls|].Refused?
              && t.counters == s.counters.(empty := s.counters.empty + 1)
    ensures raw != [] ==>
              var r := Enqueue(s.queue, s.capacity, s.evicts, Job(|s.calls|, raw));
              && t.queue == r.queue
              && (if r.ok then t.calls[|s.calls|].Accepted? else t.calls[|s.calls|].Saturated?)
              && t.counters == s.counters.(full := s.counters.full + r.drops,
                                           ingested := s.counters.ingested + if r.ok then 1 else 0)
  {
    var i := |s.calls|;
    var s0 := Next(s, Begin(raw));
    BeginAlone(s, raw);
    assert JobOf(s0, i) == Job(i, raw);
    if raw == [] {
      RefuseAlone(s, raw);
      t := Goto(s0, i, Refused).(counters := s.counters.(empty := s.counters.empty + 1));
    } else if |s.queue| < s.capacity {
      SendAlone(s, s0, i, Direct);
      t := Goto(Send(s0, i, Direct), i, Accepted(Direct)).(
        counters := s.counters.(ingested := s.counters.ingested + 1));
    } else if !s.evicts {
      RejectAlone(s, s0, i);
      t := Goto(s0, i, Saturated(Direct)).(counters := s.counters.(full := s.counters.full + 1));
    } else {
      var s1 := EvictAlone(s, s0, i);
      SendAlone(s, s1, i, AfterEviction);
      t := Goto(Send(s1, i, AfterEviction), i, Accepted(AfterEviction)).(
        counters := s1.counters.(ingested := s.counters.ingested + 1));
    }
  }
}
