/** Publishing events to the topic. The codec is abstract; the broker's answer
    to a write is a parameter. */
module Publisher {
  import opened Domain
  import opened Sequences

  type Encoder = LogEvent -> Option<Bytes>

  /** A refused write may still have left some of its messages in the log. */
  datatype Answer = Acked | Refused(landed: set<nat>)

  /** The encodings of all events, or None if one of them fails to encode. */
  function EncodeAll(enc: Encoder, events: seq<LogEvent>): (r: Option<seq<Bytes>>)
    ensures r.None? <==> exists i :: 0 <= i < |events| && enc(events[i]).None?
    ensures r.Some? ==>
              |r.value| == |events| && forall i :: 0 <= i < |events| ==> enc(events[i]) == Some(r.value[i])
  {
    if events == [] then Some([])
    else
      var n := |events| - 1;
      assert forall i :: 0 <= i < n ==> events[..n][i] == events[i];
      match (EncodeAll(enc, events[..n]), enc(events[n]))
      case (Some(before), Some(last)) => Some(before + [last])
      case _ => None
  }

  lemma EncodeOne(enc: Encoder, e: LogEvent)
    ensures EncodeAll(enc, [e]) == match enc(e) case None => None case Some(m) => Some([m])
  {
    assert [e][..0] == [];
    assert EncodeAll(enc, [e][..0]) == Some([]);
    if enc(e).Some? {
      assert [] + [enc(e).value] == [enc(e).value];
    }
  }

  function Kept(msgs: seq<Bytes>, landed: set<nat>): seq<Bytes> {
    if msgs == [] then []
    else
      var n := |msgs| - 1;
      Kept(msgs[..n], landed) + if n in landed then [msgs[n]] else []
  }

  function Append(log: seq<Bytes>, msgs: seq<Bytes>, answer: Answer): seq<Bytes> {
    match answer
    case Acked => log + msgs
    case Refused(landed) => log + Kept(msgs, landed)
  }

  class Writer {
    const encode: Encoder
    var log: seq<Bytes>

    constructor (encode: Encoder)
      ensures this.encode == encode && log == []
    {
      this.encode := encode;
      log := [];
    }

    /** All events are encoded before anything is written: one that cannot be
        encoded keeps the whole batch out of the log. */
    method Publish(events: seq<LogEvent>, answer: Answer) returns (ok: bool)
      modifies this
      ensures EncodeAll(encode, events).None? ==> !ok && log == old(log)
      ensures EncodeAll(encode, events).Some? ==>
                log == Append(old(log), EncodeAll(encode, events).value, answer) && (ok <==> answer.Acked?)
    {
      var msgs: seq<Bytes> := [];
      var i := 0;
      while i < |events|
        invariant 0 <= i <= |events|
        invariant |msgs| == i && log == old(log)
        invariant forall j :: 0 <= j < i ==> encode(events[j]) == Some(msgs[j])
      {
        var b := encode(events[i]);
        if b.None? {
          return false;
        }
        msgs := msgs + [b.value];
        i := i + 1;
      }
      assert EncodeAll(encode, events).Some?;
      assert msgs == EncodeAll(encode, events).value;
      log := Append(log, msgs, answer);
      return answer.Acked?;
    }
  }

  /** Whatever the answer, the log only grows, by messages of the batch in their
      order; an acknowledged batch is in it whole. */
  lemma {:induction false} PublishAppends(log: seq<Bytes>, msgs: seq<Bytes>, answer: Answer)
    ensures log <= Append(log, msgs, answer)
    ensures Subsequence(Append(log, msgs, answer)[|log|..], msgs)
    ensures answer.Acked? ==> Append(log, msgs, answer)[|log|..] == msgs
  {
    PrefixSubsequence(msgs, msgs);
    if answer.Refused? {
      var f := KeptEmbeds(msgs, answer.landed);
      assert Append(log, msgs, answer)[|log|..] == Kept(msgs, answer.landed);
    } else {
      assert Append(log, msgs, answer)[|log|..] == msgs;
    }
  }

  lemma {:induction false} KeptEmbeds(msgs: seq<Bytes>, landed: set<nat>) returns (f: seq<nat>)
    ensures Embeds(Kept(msgs, landed), msgs, f)
  {
    f := [];
    if msgs != [] {
      var n := |msgs| - 1;
      f := KeptEmbeds(msgs[..n], landed);
      if n in landed {
        f := f + [n];
      }
    }
  }
}
