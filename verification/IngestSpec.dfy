/** What one uninterrupted caller does to the channel: enqueue and IngestBatch
    on plain lists. */
module IngestSpec {
  import opened Domain

  /** The list afterwards, whether the item got in, and the drops counted. */
  datatype Enqueued<T> = Enqueued(queue: seq<T>, ok: bool, drops: nat)

  function Enqueue<T>(queue: seq<T>, capacity: nat, evicts: bool, x: T): Enqueued<T> {
    if |queue| < capacity then Enqueued(queue + [x], true, 0)
    else if !evicts then Enqueued(queue, false, 1)
    else
      var rest := if queue == [] then [] else queue[1..];
      var dropped := if queue == [] then 0 else 1;
      if |rest| < capacity then Enqueued(rest + [x], true, dropped) else Enqueued(rest, false, dropped + 1)
  }

  /** Outcome of a batch: stops at the first payload that is empty or rejected. */
  datatype Offered = Offered(queue: seq<Bytes>, err: Option<Error>, accepted: nat, drops: nat)

  function OfferOne(queue: seq<Bytes>, capacity: nat, evicts: bool, x: Bytes): Offered {
    if x == [] then Offered(queue, Some(NonRetryable), 0, 0)
    else
      var r := Enqueue(queue, capacity, evicts, x);
      Offered(r.queue, if r.ok then None else Some(QueueSaturated), if r.ok then 1 else 0, r.drops)
  }

  function Offer(queue: seq<Bytes>, capacity: nat, evicts: bool, xs: seq<Bytes>): Offered
    decreases |xs|
  {
    if xs == [] then Offered(queue, None, 0, 0)
    else
      var first := OfferOne(queue, capacity, evicts, xs[0]);
      if first.err.Some? then first
      else
        var rest := Offer(first.queue, capacity, evicts, xs[1..]);
        rest.(accepted := 1 + rest.accepted, drops := first.drops + rest.drops)
  }

  /** The length of the prefix before the first empty payload. */
  function UpToEmpty(xs: seq<Bytes>): (n: nat)
    ensures n <= |xs| && (n < |xs| ==> xs[n] == []) && forall i :: 0 <= i < n ==> xs[i] != []
  {
    if xs == [] || xs[0] == [] then 0 else 1 + UpToEmpty(xs[1..])
  }

  function Min(a: nat, b: nat): nat {
    if a < b then a else b
  }

  function Last<T>(n: nat, s: seq<T>): (r: seq<T>)
    ensures |r| == Min(n, |s|)
  {
    if |s| <= n then s else s[|s| - n..]
  }

  predicate NoneEmpty(xs: seq<Bytes>) {
    forall i :: 0 <= i < |xs| ==> xs[i] != []
  }

  /** One payload under drop_oldest: what is kept in the end does not depend on
      whether the oldest is dropped now or later. */
  lemma OldestStep(queue: seq<Bytes>, capacity: nat, x: Bytes, rest: seq<Bytes>)
    requires 0 < capacity && |queue| <= capacity && x != []
    ensures var first := OfferOne(queue, capacity, true, x);
            && first.err == None && first.accepted == 1 && |first.queue| <= capacity
            && first.drops == |queue| + 1 - |first.queue|
            && Last(capacity, first.queue + rest) == Last(capacity, queue + ([x] + rest))
  {
    var first := OfferOne(queue, capacity, true, x);
    if |queue| < capacity {
      assert first.queue + rest == queue + ([x] + rest);
    } else {
      assert first.queue + rest == (queue + ([x] + rest))[1..];
    }
  }

  /** drop_oldest keeps the last `capacity` of what was there and what came
      before the first empty payload, counts exactly the excess as drops, and
      fails only for an empty payload. */
  lemma {:induction false} DropOldestStopsAtEmpty(queue: seq<Bytes>, capacity: nat, xs: seq<Bytes>)
    requires 0 < capacity && |queue| <= capacity
    ensures var r := Offer(queue, capacity, true, xs);
            var n := UpToEmpty(xs);
            && r.accepted == n && r.queue == Last(capacity, queue + xs[..n])
            && r.drops == |queue| + n - |r.queue|
            && r.err == if n == |xs| then None else Some(NonRetryable)
    decreases |xs|
  {
    var n := UpToEmpty(xs);
    if xs == [] || xs[0] == [] {
      assert queue + xs[..0] == queue;
    } else {
      var rest := xs[1..][..n - 1];
      OldestStep(queue, capacity, xs[0], rest);
      DropOldestStopsAtEmpty(OfferOne(queue, capacity, true, xs[0]).queue, capacity, xs[1..]);
      assert xs[..n] == [xs[0]] + rest;
    }
  }

  /** A whole batch of non-empty payloads is accepted. */
  lemma DropOldestKeepsLast(queue: seq<Bytes>, capacity: nat, xs: seq<Bytes>)
    requires 0 < capacity && |queue| <= capacity && NoneEmpty(xs)
    ensures var r := Offer(queue, capacity, true, xs);
            && r.err == None && r.accepted == |xs|
            && r.queue == Last(capacity, queue + xs)
            && r.drops == |queue| + |xs| - |r.queue|
  {
    DropOldestStopsAtEmpty(queue, capacity, xs);
    assert xs[..|xs|] == xs;
  }

  /** drop_newest accepts exactly the prefix before the first empty payload that
      fits, keeps everything queued, and says why it stopped. */
  lemma {:induction false} DropNewestTakesPrefix(queue: seq<Bytes>, capacity: nat, xs: seq<Bytes>)
    requires |queue| <= capacity
    ensures var r := Offer(queue, capacity, false, xs);
            var fits := Min(UpToEmpty(xs), capacity - |queue|);
            && UpToEmpty(xs) <= |xs|
            && r.accepted == fits && r.queue == queue + xs[..fits]
            && (r.err == None <==> fits == |xs|)
            && (r.err == Some(QueueSaturated) <==> fits < UpToEmpty(xs))
            && (r.err.Some? ==> r.err.value in {NonRetryable, QueueSaturated})
            && r.drops == if r.err == Some(QueueSaturated) then 1 else 0
    decreases |xs|
  {
    if xs == [] {
      assert queue + xs[..0] == queue;
    } else if xs[0] == [] || |queue| == capacity {
      assert queue + xs[..0] == queue;
    } else {
      DropNewestTakesPrefix(queue + [xs[0]], capacity, xs[1..]);
      var k := Min(UpToEmpty(xs[1..]), capacity - |queue| - 1);
      assert xs[..k + 1] == [xs[0]] + xs[1..][..k];
      assert queue + xs[..k + 1] == (queue + [xs[0]]) + xs[1..][..k];
    }
  }

  /** Whatever the policy: without an error every payload was accepted; with one,
      exactly the payloads before the one that caused it, and the error tells an
      empty payload from a full channel. */
  lemma {:induction false} OfferAccepts(queue: seq<Bytes>, capacity: nat, evicts: bool, xs: seq<Bytes>)
    ensures var r := Offer(queue, capacity, evicts, xs);
            && (r.err == None ==> r.accepted == |xs|)
            && (r.err.Some? ==> r.accepted < |xs|
                                && r.err == Some(if xs[r.accepted] == [] then NonRetryable else QueueSaturated))
    decreases |xs|
  {
    if xs != [] {
      OfferAccepts(OfferOne(queue, capacity, evicts, xs[0]).queue, capacity, evicts, xs[1..]);
    }
  }

  /** Offering one batch after another is offering their concatenation. */
  lemma {:induction false} OfferConcat(queue: seq<Bytes>, capacity: nat, evicts: bool, xs: seq<Bytes>, ys: seq<Bytes>)
    ensures var r := Offer(queue, capacity, evicts, xs);
            r.err == None ==>
              var t := Offer(r.queue, capacity, evicts, ys);
              Offer(queue, capacity, evicts, xs + ys)
              == t.(accepted := r.accepted + t.accepted, drops := r.drops + t.drops)
    ensures Offer(queue, capacity, evicts, xs).err.Some? ==>
              Offer(queue, capacity, evicts, xs + ys) == Offer(queue, capacity, evicts, xs)
    decreases |xs|
  {
    if xs == [] {
      assert xs + ys == ys;
    } else {
      var first := OfferOne(queue, capacity, evicts, xs[0]);
      assert (xs + ys)[1..] == xs[1..] + ys;
      OfferConcat(first.queue, capacity, evicts, xs[1..], ys);
    }
  }
}
