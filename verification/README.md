# Verified model of the observability pipeline

The repository has two hand-written concurrent programs: the **collector**, which
takes raw payloads over HTTP into a bounded channel and publishes them to Kafka
with a pool of workers, and the **processor**, which reads Kafka, batches points,
writes them to a time-series store and commits offsets. This project models both
and proves what they keep in every run. `dafny verify dfyconfig.toml` checks it.

## How the model is built

Every run is a sequence of steps of a state machine; a result about "reachable"
states holds after any sequence of enabled steps. Histories (what was sent, in
what order jobs finished, which messages were accepted) are ordinary fields that
only observe.

**Collector.** `CollectorModel` gives every goroutine action a step of its own:
each of the three channel operations of a `drop_oldest` enqueue, each counter
increment, each parse and publish, and the length check and the close of
Shutdown. Any number of Ingest calls, any number of workers and Shutdown
interleave. `CollectorFates`, `CollectorCounts`, `CollectorOrder`,
`CollectorContention`, `CollectorSaturation` and `CollectorShutdown` hold the
invariants and results.
`CollectorCode` is the same service as classes with loops and heap memory (pooled
buffers, payload arrays, the caller's slices), run without interruption and
proved against `IngestSpec`; `CollectorSequential` proves that an uninterrupted
call of the state machine is the same list operation. `PublishedTopic` runs the
state machine together with the partitioned topic its workers write, so that
parser, encoder and broker decide the verdicts; `EndToEnd` lets the processor read
that topic.

**Processor.** `RunnerCore.Turn` is what one turn of the select loop does to
committed offsets, store and buffer. `RunnerCode.Runner` is the code, proved to
compute it. `RunnerModel` puts the same function into a state machine with the
fetch goroutine, its 8-slot channel, cancellation, crashes (also in the middle of
a batch write) and restarts from the committed offsets. `RunnerSafety` and
`RunnerTheorems` hold what every run keeps; `RunnerStore`, `RunnerReplay` and
`RunnerConverge` what it leaves in the store; `RunnerDiverge` builds runs for any
topic that show the conditions are needed. A flush is one step: the
fetch goroutine touches none of what a flush touches, and a crash inside it is a
step of its own.

**Modelling assumptions.**

- Committing a list of messages sets each touched partition to one past its
  largest offset in the list; the last commit wins. A restarted group reads from
  there, and from offset 0 where nothing was committed.
- A stored value is addressed by measurement, tags, time and field; the last write
  wins. Failing calls may take effect: a failed point write may have landed, a
  failed commit may have been applied on any partitions, a refused publish may
  have left messages in the log.
- A topic is given with everything it will ever hold; a run reads only as far as
  it gets. Offsets of a partition are contiguous: no compaction, no transaction
  markers.
- A send on a closed channel panics in its HTTP handler; the handler's recovery
  keeps the process alive, so the model lets the call end there and goes on.
- In the class code, lists of answers from Kafka and the store may be short:
  answers not listed are successes.

## What turned out not to hold as one might state it

- *Whatever lies below the committed offset has been written.* Not with
  undecodable messages: their immediate commit passes earlier messages that are
  only in the buffer (`CommitPastBuffer`). `RiskSet` says exactly which messages
  are in that position in any reachable state, `RestartLosesRisk` that exactly
  those are lost when the process ends; `AtLeastOnce` needs nothing but that no
  undecodable message lies between the message and the committed offset.
- *A flushed batch is in the store.* A write that fails for some points only
  returns nil and is committed (`PartialWriteLoses`). `StoreAccounting` says which
  cells can differ, `CompleteIff` exactly when a batch write is complete.
- *The buffer stays below BatchMax.* Exactly as long as every flush of a buffer
  that has reached it succeeds (`BufferBoundIff`); after that no bound holds
  (`BufferBound`, `BufferUnbounded`).
- *Replay converges.* If a commit that reports an error may have been applied,
  exactly when no two events of the topic share their key and differ
  (`ConvergesIff`); otherwise a half-failed rewrite followed by a crash can leave
  any event's value behind (`LateCommitDiverges`). If such commits are never
  applied, exactly when the partitions that write a cell agree on its last value
  (`HonestConvergesIff`); with one partition, always. Both need that a write that
  returned nil wrote every point.
- *drop_oldest always makes room.* `docs/architecture.md:33` describes it as
  discarding one queued item and then enqueueing. The code can also discard an item
  and still reject the new one, whatever the capacity (`EvictsAndIsRejected`);
  `RejectedIff` says exactly when. The code is what is modelled.
- *DROP_POLICY is honoured.* A non-positive channel capacity replaces the whole
  configuration, drop policy included (`NormalizeUsable`).
- *No send meets the closed channel.* Only if the handlers returned before
  Shutdown closed it; `PanicIff` gives the exact condition.

## Model

| member | source | states |
|---|---|---|
| `Config.NormalizeUsable` | internal/app/collector/service.go:39-53 | a positive configured capacity is kept, with it the configured workers, watermark and drop policy where they are set; otherwise capacity 10000, twice the CPUs, 0.8 and drop_newest; normalizing twice changes nothing |
| `CollectorCounts.ExactlyOneFate` | internal/app/collector/service.go:75-194 | in every interleaving a call that completed a send has its own bytes in exactly one place (queued, in one worker's hands, finished, evicted) exactly once; a call that did not has them nowhere; empty payloads are exactly the refused ones |
| `CollectorCounts.CounterMeaning` | internal/app/collector/service.go:79-143 | every counter equals its number of events minus the goroutines standing between event and increment |
| `CollectorCounts.BooksClose` | internal/app/collector/service.go:175-194 | at rest calls = PublishedTotal + DropTotal, up to panicked calls and their one extra drop; IngestTotal = published + evicted + parse errors + publish errors |
| `CollectorCounts.SlotAccounting` | internal/app/collector/service.go:111-132 | queued + received + evictions not yet used + evictions wasted = sends that evicted nothing, so rejections after an eviction never exceed those sends |
| `CollectorOrder.ChannelIsFifo` | internal/app/collector/service.go:113-119 | the jobs that left the channel followed by those in it are exactly the send sequence; received and evicted jobs are subsequences of it |
| `CollectorOrder.OneWorkerInOrder` | internal/app/collector/service.go:168-194 | with one worker jobs finish in receive order and the publish sequence is a subsequence of the send sequence |
| `CollectorOrder.BoundedOvertaking` | internal/app/collector/service.go:168-194 | with W workers, whenever a job finishes at most W-1 jobs received before it are unfinished |
| `CollectorContention.SaturationNeedsContention` | internal/app/collector/service.go:111-132 | a drop_oldest call that ends saturated saw other, pairwise different calls complete a send between its middle select and its retry, as many as the channel has slots if it had found it empty |
| `CollectorSaturation.RejectedIff` | internal/app/collector/service.go:117-130 | on an open channel the retry is rejected exactly if what the middle select left queued, plus the sends since, less the departures since, fills the channel |
| `CollectorSaturation.EvictsAndIsRejected` | internal/app/collector/service.go:117-130 | whatever the capacity, some run has a call evict a job and be rejected after a single send by another call |
| `CollectorSaturation.FindsEmptyAndIsRejected` | internal/app/collector/service.go:117-130 | whatever the capacity, some run has a call find the channel empty and be rejected after exactly as many sends as there are slots |
| `CollectorContention.LoneProducerNeverSaturates` | internal/app/collector/service.go:111-132 | with calls made one after the other drop_oldest never returns the saturation error, whatever workers and Shutdown do |
| `CollectorShutdown.ShutdownDrains` | internal/app/collector/service.go:197-214 | when Shutdown has returned, by either branch, the channel is closed and empty, all workers have exited, every sent job was evicted or finished exactly once and the worker counters are final |
| `CollectorShutdown.TickSeesEmpty` | internal/app/collector/service.go:206-209 | before the deadline Shutdown goes on exactly at a tick that finds the channel empty |
| `CollectorShutdown.ClosedWhenEmpty` | internal/app/collector/service.go:206-209 | if the handlers returned first and the deadline never fires, the channel is empty when it is closed |
| `CollectorShutdown.DrainProgress` | internal/app/collector/service.go:168-173 | after the close every worker step lowers a measure of queue length and worker phases, and no other step raises it |
| `CollectorShutdown.DrainBounded` | internal/app/collector/service.go:168-173 | after the close the workers take a bounded number of steps, whatever else is interleaved |
| `CollectorShutdown.DrainCompletes` | internal/app/collector/service.go:197-214 | from any state with the channel closed the workers alone reach the point where Shutdown returns: no worker is stuck |
| `CollectorShutdown.PanicIff` | internal/app/collector/service.go:109-147 | once the channel is closed a call can still panic on it exactly if some call begun earlier has not completed its send |
| `CollectorShutdown.ClosedMiddleSelect` | internal/app/collector/service.go:117-126 | on a closed channel the middle select of a drop_oldest call evicts the oldest job or receives nothing, counts one drop either way, and the retry panics |
| `CollectorShutdown.CloseUnderCall` | internal/app/collector/service.go:202-205 | such a state is reachable under every configuration when a call is active while Shutdown times out |
| `CollectorShutdown.DrainedShutdownClosesBooks` | cmd/collector/main.go:92-100 | if all handlers returned before Shutdown starts and none begins later, no call panics, and after Shutdown calls = PublishedTotal + DropTotal and every accepted payload is published, evicted or a worker drop |
| `CollectorSequential.SoloIngestIsEnqueue` | internal/app/collector/service.go:75-147 | an uninterrupted Ingest of the state machine does the list operation: same channel, verdict, drops and accepts; an empty payload is refused and counted |
| `IngestSpec.DropOldestStopsAtEmpty` | internal/app/collector/service.go:159-166 | under drop_oldest a batch is accepted up to its first empty payload, which is its only error, leaves the last capacity-many of old contents and that prefix, and counts exactly the excess as drops |
| `IngestSpec.DropOldestKeepsLast` | internal/app/collector/service.go:159-166 | under drop_oldest a batch of non-empty payloads is accepted whole, leaves the last capacity-many of old contents and batch, and counts exactly the excess as drops |
| `IngestSpec.DropNewestTakesPrefix` | internal/app/collector/service.go:159-166 | under drop_newest the accepted payloads are exactly the prefix before the first empty one that fits, and the error says which of the two stopped it |
| `IngestSpec.OfferAccepts` | internal/app/collector/service.go:159-166 | under either policy exactly the payloads before the failing one are accepted, and the error tells an empty payload from a full channel |
| `IngestSpec.OfferConcat` | internal/app/collector/service.go:159-166 | batches offered one after the other act as their concatenation, up to the first error |
| `Pool.Buffer.Write` | internal/app/collector/service.go:99-107 | appends the given bytes to the buffered ones, whether or not the backing array has to grow |
| `Pool.BufferPool.Get` | internal/app/collector/pool.go:21-23 | hands out an empty buffer: a pooled one, which leaves the pool, or a new one; it shares nothing with what stays there |
| `Pool.BufferPool.Put` | internal/app/collector/pool.go:25-37 | takes the emptied buffer back unless its capacity exceeds 1 MiB; the pooled buffers stay empty, small and disjoint |
| `Pool.BufferPool.CopyPayload` | internal/app/collector/service.go:99-107 | returns new memory with the caller's bytes that neither the caller nor the pool holds; the buffer used is pooled again unless it exceeds 1 MiB |
| `CollectorCode.Service.constructor` | internal/app/collector/service.go:39-68 | starts with an open, empty channel of the configured capacity, or 10000 slots if that is not positive, and with workers, watermark and policy accordingly |
| `CollectorCode.Service.EnqueueJob` | internal/app/collector/service.go:109-147 | the channel, the verdict and the drop counter become what the list operation says, for both policies; on a closed channel it panics and changes nothing |
| `CollectorCode.Service.Ingest` | internal/app/collector/service.go:71-97 | queued bytes and error become what offering the payload says; an empty payload counts as empty, an accepted one as ingested, each eviction and each rejection as one drop; it panics exactly for a non-empty payload on a closed channel; all memory added to the service is new |
| `CollectorCode.Service.IngestBatch` | internal/app/collector/service.go:159-166 | queued bytes and error become what offering the batch says; exactly the payloads before the failing one count as ingested, an empty one as empty, and the drops are those of the offer; it panics exactly if the channel is closed and the first payload is not empty; all memory added to the service is new |
| `CollectorCode.RunCallers` | internal/app/collector/service.go:99-107 | over any sequence of overwritten slices and batches sent from them, by any number of callers, what is queued is what the slices held when each batch was sent |
| `CollectorCode.Service.HandleJob` | internal/app/collector/service.go:175-194 | a payload that does not parse counts as a parse error; one whose event does not encode or is refused as a publish error; an acknowledged one as published, with its message at the end of the topic; nothing else changes |
| `CollectorCode.Service.WorkerLoop` | internal/app/collector/service.go:168-173 | handles everything queued, in order, each job once |
| `CollectorCode.Service.Shutdown` | internal/app/collector/service.go:197-214 | whatever the ticks and the deadline do, ends closed and empty with exactly the queued payloads handled, in order; before the deadline the channel is closed only when the workers have emptied it |
| `CollectorCode.HandledCounts` | internal/app/collector/service.go:175-194 | over any list of jobs parse errors, published and publish errors grow by exactly the jobs that do not parse, that encode and are acknowledged, and the rest |
| `CollectorCode.HandledLog` | internal/app/collector/service.go:186-191 | the topic grows by encodings of the jobs' events, in order, each job at most once and every acknowledged one included |
| `CollectorCode.HandledOnce` | internal/app/collector/service.go:175-194 | each handled job moves exactly one worker counter by one, and the topic grows by at least the published count |
| `Publisher.Writer.Publish` | internal/infra/kafka/publisher.go:50-60 | one event that fails to encode keeps the whole batch out of the log; otherwise the batch is written in order and the broker's answer returned |
| `Publisher.PublishAppends` | internal/infra/kafka/publisher.go:50-60 | the log only grows, by messages of the batch in their order, and by the whole batch when acknowledged |
| `Processor.ProcessBatch` | internal/app/processor/defaultproc.go:36-46 | the points of the events, one each, in order |
| `Processor.ProcessRoundTrip` | internal/app/processor/defaultproc.go:17-34 | measurement, time, and each value under its own tag or field; a point reads back to its event without the raw metadata, and every point that reads back is the point of that event |
| `Processor.KeyOfProcess` | internal/app/processor/defaultproc.go:17-34 | two events share a cell exactly when source, tenant, API and time agree; then the later replaces the earlier completely, otherwise their order does not matter |
| `Storage.Influx.WritePoints` | internal/infra/storage/influxdb/storage.go:27-48 | the store takes each landed point in order; Written + number of errors = number of points; the errors are those of the failed points, in their order; an error is returned exactly when every point of a non-empty batch failed, and it is the first one |
| `Storage.LandAt` | internal/infra/storage/influxdb/storage.go:31-43 | a batch write leaves what upserting the batch leaves in every cell whose last toucher landed |
| `Storage.LostIff` | internal/infra/storage/influxdb/storage.go:31-43 | a cell counts as lost exactly if the last point of the batch that touches it did not land |
| `Storage.CompleteIff` | internal/infra/storage/influxdb/storage.go:31-47 | a batch write acts as upserting the whole batch, from any store, exactly if in every cell the last landed point writes the last point's value |
| `RunnerCore.FlushEffect` | internal/app/processor/runner.go:48-72 | an empty buffer costs nothing; a write in which every point failed leaves offsets and buffer; after any other write the batch is committed, and the buffer is emptied only if that succeeds |
| `RunnerCode.Runner.FlushBuffer` | internal/app/processor/runner.go:48-72 | offsets, store and buffer become what a flush specifies; success, write errors and commit errors are told by the answers |
| `RunnerCode.Runner.Run` | internal/app/processor/runner.go:31-131 | the select loop computes the turns of its choices up to the first that exits, with BatchMax 500 where none is configured, and counts each undecodable message; fewer decodable messages than BatchMax leave offsets and store alone |
| `RunnerCore.TurnsConcat` | internal/app/processor/runner.go:89-131 | turns run one after the other, none is skipped, undecodable messages add up, and an exit ends them |
| `RunnerCore.WaitsForBatch` | internal/app/processor/runner.go:124-129 | without a tick or an exit, messages that do not make up BatchMax stay in the buffer and nothing is written or committed |
| `RunnerModel.LoopStepIsTurn` | internal/app/processor/runner.go:89-131 | the state machine's main-loop steps do to offsets, store and buffer exactly what the code does |
| `RunnerTheorems.FlushTurn` | internal/app/processor/runner.go:91-109 | a tick, the cancellation and a failed fetch after it flush; the latter two end the loop; a failed fetch before it does nothing |
| `RunnerTheorems.UndecodableTurn` | internal/app/processor/runner.go:112-117 | an undecodable message commits itself only, leaving buffer and store; a failing commit ends the loop |
| `RunnerTheorems.DecodableTurn` | internal/app/processor/runner.go:119-129 | a decodable message joins the buffer; only when that holds BatchMax items it is flushed, and otherwise nothing is written or committed |
| `RunnerTheorems.PipelineSafety` | internal/app/processor/runner.go:74-118 | consumed messages are a prefix of the fetched ones, at most nine outcomes lie between, and no watermark passes the last consumed message |
| `RunnerTheorems.PipeHoldsNine` | internal/app/processor/runner.go:74-87 | some run has nine outcomes in between |
| `RunnerTheorems.ConsumedInOrder` | internal/app/processor/runner.go:80-110 | in each partition the consumed messages are exactly a gapless range from the start offset, in order |
| `RunnerTheorems.AtLeastOnce` | internal/app/processor/runner.go:48-72 | a message below the committed offset with nothing undecodable from it to that offset was part of a write that returned nil, across failures, crashes and restarts |
| `RunnerTheorems.RiskSet` | internal/app/processor/runner.go:66-117 | a decodable message is below the watermark without having been accepted exactly if an earlier process lost it, or it is buffered, not accepted, and an undecodable message further on in its partition was committed since the last successful flush |
| `RunnerTheorems.RestartLosesRisk` | internal/app/processor/runner.go:90-94 | the end of a process loses exactly the messages at risk in it |
| `RunnerTheorems.FlushEndsRisk` | internal/app/processor/runner.go:59-71 | after a successful flush by tick, full batch or exit, at risk is exactly what earlier processes lost |
| `RunnerTheorems.CommitPastBuffer` | internal/app/processor/runner.go:112-117 | a run that loses a good message behind a bad one |
| `RunnerTheorems.BatchingIsTransparent` | internal/app/processor/runner.go:100-129 | the delivered batches followed by the buffer are the processed decodable messages this process has consumed so far, in order |
| `RunnerTheorems.BatchesAreFull` | internal/app/processor/runner.go:124-129 | as long as only full buffers are flushed, and with success, every batch has exactly BatchMax items and there are as many as the decodable messages consumed make up |
| `RunnerTheorems.BufferBound` | internal/app/processor/runner.go:124-129 | the buffer holds at most BatchMax - 1 + failed flushes since the last success |
| `RunnerTheorems.BufferBoundIff` | internal/app/processor/runner.go:124-129 | a run reaches BatchMax at some loop head exactly if some flush of a buffer that had reached it failed |
| `RunnerTheorems.BufferUnbounded` | internal/app/processor/runner.go:124-129 | with failing flushes it reaches any size |
| `RunnerTheorems.LossNeedsPartialWrite` | internal/infra/storage/influxdb/storage.go:38-47 | a delivered message whose point never reached the store failed in its committing attempt while another point of that batch was stored |
| `RunnerStore.StoreAccounting` | internal/app/processor/runner.go:59-70 | in every reachable state the store equals the one the present process started from with each event it delivered upserted once, in order, in every cell that is neither buffered nor had its last writer lost by a committing write |
| `RunnerStore.SuspectIff` | internal/app/processor/runner.go:59-70 | a cell counts as suspect exactly if the last committed batch that touches it lost it |
| `RunnerStore.EffectivelyOnce` | internal/app/processor/runner.go:48-72 | if committing attempts wrote all their points, then with the buffer flushed the store is the one the process started from with each decodable consumed message processed and upserted exactly once, in order, whatever failed attempts left behind |
| `RunnerStore.PartialWriteLoses` | internal/infra/storage/influxdb/storage.go:44-47 | a run in which an accepted, committed event is missing from the store, exactly when the next event does not replace it |
| `RunnerConverge.LandedIsStored` | internal/infra/storage/influxdb/storage.go:31-43 | in every run a message whose point ever reached the database is in the store in each of its cells, with a value some message of the topic gives it, and the store holds nothing else but what was there at first |
| `RunnerConverge.AcceptedIsStored` | internal/infra/storage/influxdb/storage.go:31-47 | if nil writes were whole, through any crashes and failures every accepted message has reached the database and is in the store in this sense |
| `RunnerConverge.EndCell` | internal/app/processor/runner.go:59-70 | once caught up, even if commits reported as failed were applied, a cell holds the value of its events where those agree, or its original value |
| `RunnerReplay.CaughtUpCell` | internal/app/processor/runner.go:59-70 | once caught up, if commits reported as failed were not applied and the partitions that write a cell agree on its last value, it holds that value, or its original one |
| `RunnerReplay.CrashesConverge` | docs/architecture.md:54 | any two such runs over the same log, with any crashes, failures and partition interleavings, end in the same store |
| `RunnerDiverge.HonestConvergesIff` | docs/architecture.md:54 | where commits reported as failed are not applied, all caught-up runs end in the same store exactly if the partitions that write a cell agree on its last value |
| `RunnerDiverge.ConvergesIff` | docs/architecture.md:54 | where they may be applied, all caught-up runs end in the same store exactly if no two events share their key and differ |
| `RunnerReplay.OnePartitionConverges` | docs/architecture.md:54 | with one partition and honest commits that store is the whole log upserted once, in order |
| `RunnerDiverge.OnePartitionConvergesIff` | docs/architecture.md:54 | with one partition and any commits every caught-up run ends there exactly if no two events share their key and differ |
| `RunnerDiverge.LateCommitDiverges` | internal/app/processor/runner.go:66-69 | for every message of every topic a run whose commit is applied but reported as failed ends caught up with that message's values in its cells |
| `PublishedTopic.TopicCarriesPublished` | internal/app/collector/service.go:175-191 | in every interleaving, with any parser, encoder and broker answers, every message of the topic is an encoding and each job whose publishing succeeded has a message of its own that encodes its event |
| `PublishedTopic.VerdictsAreRight` | internal/app/collector/service.go:175-190 | in every interleaving a job ends as parse failure exactly if it does not parse, as publish failure if its event does not encode, as published only if it does |
| `PublishedTopic.NoDuplicates` | internal/app/collector/service.go:186-191 | the topic never holds more messages than jobs were tried to publish |
| `PublishedTopic.TopicOnlyGrows` | internal/infra/kafka/publisher.go:50-60 | later states keep every message and every job's place |
| `EndToEnd.WorkersFeed` | internal/app/collector/service.go:186-191 | everything the workers of the sequential code add to the topic is the encoding of an event |
| `EndToEnd.AtLeastOnceUnconditionally` | internal/app/processor/runner.go:110-124 | on the topic of any collector run, with a codec that round-trips, nothing is ever poisoned or orphaned and at-least-once holds without a condition |
| `EndToEnd.PublishedIsAccepted` | internal/infra/kafka/publisher.go:50-60 | once the processor has caught up on that topic, each event counted in PublishedTotal has a message of its own that storage accepted and that decodes to it |
| `EndToEnd.PublishedIsStored` | internal/app/processor/defaultproc.go:17-34 | if moreover nil writes were whole, every cell of every published event is in the store: with a value of the topic, with its own value if no events conflict, with its partition's last value if commits are honest and partitions agree |
| `EndToEnd.NothingLostSilently` | cmd/collector/main.go:92-100 | after an orderly shutdown and a processor that caught up, every Ingest call was counted as a drop or has a message of its own that storage accepted |

## Left out

- Kafka, InfluxDB, gin and Prometheus clients, rebalancing and the asynchronous producer: foreign; their calls appear as answers.
- JSON encoding and decoding, and the parser's default for a missing time stamp: the codec is a parameter; the round trip is a hypothesis of the end-to-end results.
- Wall-clock time, latency histograms, the utilization gauge, log lines and sleeps: ticks and deadlines are choices of the run.
- Counter labels: DropTotal is split by reason only.
- HTTP routes, the query API, the noop store, `ReadBodyIntoPool` and the shutdown helpers of internal/infra/runtime: they would only add easy members.
- A processor whose `Process` returns an error (internal/app/processor/runner.go:119-123): the default processor never does.
- Hand-off of a send to an already waiting receiver: the model enqueues first and lets any goroutine take the job, which allows more runs.
- CollectorCode.RunCallers: the channel stays open and no two slices share memory; a panicking batch is in IngestBatch.
- CollectorCode.Service.WorkerLoop: returns on an empty channel, also while it is open, where the source's loop blocks; blocking is in the state machine.
- RunnerDiverge.ConvergesIff: is about topics in which everything decodes, and so are HonestConvergesIff and OnePartitionConvergesIff; what undecodable messages can lose is the subject of RiskSet.
