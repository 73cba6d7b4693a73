/** The processor's Runner as code: the flush closure and the select loop. */
module RunnerCode {
  import opened Domain
  import opened Storage
  import opened Processor
  import opened RunnerCore

  class Reader {
    var watermark: seq<nat>

    constructor (partitions: nat)
      ensures watermark == seq(partitions, _ => 0)
    {
      watermark := seq(partitions, _ => 0);
    }

    method CommitMessages(msgs: seq<Message>, o: CommitOutcome) returns (ok: bool)
      modifies this
      ensures watermark == Commit(old(watermark), msgs, o)
      ensures ok <==> o.Committed?
    {
      watermark := Commit(watermark, msgs, o);
      ok := o.Committed?;
    }
  }

  class Runner {
    const reader: Reader
    const storage: Influx
    const decode: Decoder
    var batchMax: int
    var buf: seq<Item>
    var writeErrors: nat
    var commitErrors: nat
    var unmarshalErrors: nat

    constructor (reader: Reader, storage: Influx, decode: Decoder, batchMax: int)
      ensures this.reader == reader && this.storage == storage && this.decode == decode
      ensures this.batchMax == batchMax && buf == []
      ensures writeErrors == commitErrors == unmarshalErrors == 0
    {
      this.reader, this.storage, this.decode, this.batchMax := reader, storage, decode, batchMax;
      buf := [];
      writeErrors, commitErrors, unmarshalErrors := 0, 0, 0;
    }

    ghost function Abs(): (c: Core)
      reads this, reader, storage
      ensures c.watermark == reader.watermark && c.store == storage.store && c.buf == buf
    {
      Core(reader.watermark, storage.store, buf)
    }

    /** The buffer's points and messages, index by index. */
    method Collect() returns (points: seq<MetricPoint>, msgs: seq<Message>)
      ensures points == Points(buf) && msgs == Messages(buf)
    {
      points, msgs := [], [];
      for i := 0 to |buf|
        invariant points == Points(buf)[..i]
        invariant msgs == Messages(buf)[..i]
      {
        points := points + [buf[i].point];
        msgs := msgs + [buf[i].msg];
      }
    }

    method FlushBuffer(io: Io) returns (ok: bool)
      modifies this, reader, storage
      ensures Abs() == Flush(old(Abs()), io)
      ensures ok <==> |old(buf)| == 0 || (!WriteFails(|old(buf)|, io.outs) && io.commit.Committed?)
      ensures writeErrors == old(writeErrors) + if WriteFails(|old(buf)|, io.outs) then 1 else 0
      ensures commitErrors == old(commitErrors)
                              + if |old(buf)| > 0 && !WriteFails(|old(buf)|, io.outs) && io.commit.CommitFailed? then 1 else 0
      ensures unmarshalErrors == old(unmarshalErrors) && batchMax == old(batchMax)
    {
      if |buf| == 0 {
        return true;
      }
      ghost var c := Abs();
      var points, msgs := Collect();
      FlushBy(c, io, Land(c.store, points, io.outs), Commit(c.watermark, msgs, io.commit));
      var _, err := storage.WritePoints(points, io.outs);
      assert err.Some? <==> WriteFails(|buf|, io.outs);
      if err.Some? {
        writeErrors := writeErrors + 1;
        return false;
      }
      var committed := reader.CommitMessages(msgs, io.commit);
      if !committed {
        commitErrors := commitErrors + 1;
        return false;
      }
      buf := [];
      return true;
    }

    /** Runs until a choice makes the loop return; `script` is what the select
        statement picks, turn by turn. */
    method Run(script: seq<Choice>) returns (exited: bool)
      modifies this, reader, storage
      ensures batchMax == if old(batchMax) > 0 then old(batchMax) else 500
      ensures Abs() == Turns(decode, batchMax, old(Abs()), script)
      ensures exited <==> exists i :: 0 <= i < |script| && Exits(decode, script[i])
      ensures unmarshalErrors == old(unmarshalErrors) + UndecodableTaken(decode, script)
      ensures OnlyTakes(decode, script) && |old(buf)| + |Taken(decode, script)| < batchMax ==>
                && !exited && reader.watermark == old(reader.watermark) && storage.store == old(storage.store)
                && buf == old(buf) + Taken(decode, script)
    {
      ghost var waits := OnlyTakes(decode, script) && |buf| + |Taken(decode, script)| < EffectiveBatchMax(batchMax);
      if waits {
        WaitsForBatch(decode, EffectiveBatchMax(batchMax), Abs(), script);
      }
      if batchMax <= 0 {
        batchMax := DEFAULT_BATCH_MAX;
      }
      var i := 0;
      while i < |script|
        invariant 0 <= i <= |script|
        invariant batchMax == EffectiveBatchMax(old(batchMax))
        invariant Turns(decode, batchMax, old(Abs()), script) == Turns(decode, batchMax, Abs(), script[i..])
        invariant forall j :: 0 <= j < i ==> !Exits(decode, script[j])
        invariant old(unmarshalErrors) + UndecodableTaken(decode, script)
               == unmarshalErrors + UndecodableTaken(decode, script[i..])
      {
        assert script[i..][1..] == script[i + 1..];
        match script[i] {
          case Done(io) =>
            var _ := FlushBuffer(io);
            return true;
          case Tick(io) =>
            var _ := FlushBuffer(io);
          case Take(outcome, cancelled, io) =>
            if outcome.FetchFailed? {
              if cancelled {
                var _ := FlushBuffer(io);
                return true;
              }
            } else {
              var m := outcome.msg;
              match decode(m.value) {
                case None =>
                  unmarshalErrors := unmarshalErrors + 1;
                  var ok := reader.CommitMessages([m], io.commit);
                  if !ok {
                    return true;
                  }
                case Some(e) =>
                  buf := buf + [Item(m, Process(e))];
                  if |buf| >= batchMax {
                    var _ := FlushBuffer(io);
                  }
              }
            }
        }
        i := i + 1;
      }
      return false;
    }
  }
}
