# dns-flow: a verified model of the collector

dns-flow collects DNS traffic. A DNSTAP server decodes frames into events, a pipeline of
workers correlates queries with responses, adds location data and writes each event to its
storages, a Kafka producer batches events, and writers put them into ClickHouse, InfluxDB
or rotating files. This project models those parts in Dafny and proves what they keep, lose
and give back. `dafny verify dfyconfig.toml` checks all of it.

How the modules follow the program:

| part of the program | modules |
|---|---|
| values, text, sets and multisets | `Domain`, `Text`, `Sets`, `Bags` |
| DNSTAP decoding | `DnstapDecode`, `Latency`, `PolicyExtra` |
| query/response correlator | `Correlator` |
| pipeline | `PipelineMachine` (steps and invariant), `PipelineRuns` (whole runs), `PipelineObject` (the struct, with storages and resolver), `Enrichment` |
| Kafka producer | `Batching` (queue and flusher), `Retriable` (errors), `Delivery` (attempts against the broker), `DeliveryOrder` (from copies back to events), `KeyOrder` (order per key over all runs), `KafkaProducer` (the struct) |
| decoder, pipeline, correlator and producer together | `EndToEnd` |
| ClickHouse writer | `ClickHouseRows` |
| InfluxDB line protocol | `Escaping`, `LineProtocol`, `EventLine` |
| rotating file writer | `RotatingFile` (the struct and its failures), `RotationRuns` (runs without failures), `RotationBytes` (sizes and bytes of runs), `Retention` (cleanup), `RotationRetention` (rotation and cleanup together) |

Concurrency is modelled by steps: every arm of a `select` that the Go runtime may pick is a
step of its own, and the theorems hold of every interleaving. Code that updates fields or
buffers in place is a class or a method over mutable state whose postcondition ties each
call to a step or to a function; lemmas then say what those functions amount to over whole
runs. Clocks, the broker, the operating system, the network and library calls are
parameters, so nothing is assumed of them beyond the hypotheses written in the lemmas.

## What the code does and its documentation does not say

- *Zero data loss, drained queue* (docs/architecture.md lines 230-238). `Shutdown` cancels
  the workers before it closes the queue, and a worker's `select` may see the cancellation
  first. `PipelineRuns.NothingLostIff` gives the exact condition at any moment, the call of
  `Shutdown` included: with no further senders the queue is sure to be drained if and only if
  it is already empty; with senders still calling it must also be closed or have no room at
  all (`PipelineRuns.NothingLostWithSendersIff`). `PipelineRuns.ZeroLossFails` is a concrete
  loss, `Batching.CloseDrainsIff` the same fact about the producer's `Close`, and
  `EndToEnd.EveryEventIsAccountedFor` names, event by event, every place where one can end.
- *Ordering per domain guaranteed* (docs/architecture.md line 159, of the Kafka producer;
  line 219 says that the pipeline in front of it gives no order). Three things decide. The
  pipeline hands the events about a domain to the producer in the order accepted, in every
  interleaving, if and only if at most one worker is configured (`PipelineRuns.DomainOrderIff`;
  the default is four). From there to the broker, copies of messages in different batches
  arrive in the order in which the producer accepted the events
  (`KafkaProducer.Producer.DeliveriesFollowQueue`). Within one batch a retry after a partial
  acceptance can deliver a later message first: over all runs and all brokers the order per key
  holds if and only if a batch holds at most one message (`KeyOrder.KeyOrderIff`), and of one
  given batch if and only if no key repeats in it (`Delivery.KeyOrderGuaranteedIff`).
- *Orphaned responses and unanswered queries* (docs/architecture.md lines 175-181). The
  correlator answers exactly the queries that its own history leaves live, but it sees events
  in the order accepted if and only if at most one worker is configured
  (`PipelineRuns.CorrelationOrderIff`). With more, a response can be correlated before the query
  it answers: it is reported as orphaned and the query later as unanswered
  (`PipelineRuns.ResponseOvertakesQuery`).
- *Retried errors* (docs/architecture.md line 162). The documentation lists three codes; the
  code also retries `NotLeaderForPartition`. The model has all four. `isRetriable` looks into
  the first per-message list only, so an error that joins two lists may be missed:
  `Retriable.RetriableIffMentioned` says for which errors, by their shape. The library's write
  call is not visible here and is only known to return one list or one error, so joined errors
  are a hypothetical case of the code.
- *Rotation* (internal/adapter/outbound/file/writer.go lines 116-123). The backup's name has
  a resolution of one second: a second rotation in the same second replaces the first
  backup. A run of writes keeps every byte if and only if no two of its rotations fall in the
  same second (`RotationBytes.BytesKeptIff`); `RotationBytes.SameSecondLosesBackup` is such a
  run.
- *A failing rotation* can leave the writer without a usable file in two ways
  (`RotatingFile.FileLostIff`). After a failed rename or reopening the file is nil, and every
  later `Write` reports success and stores nothing. After a failed `Close` it is a closed file,
  and every later `Write` reports an error (`RotatingFile.LostFileStaysLost`).
- *max_backups without compression*. The active file matches the backup pattern and, when
  its extension starts with a letter, sorts above every backup, so one backup fewer stays
  (`Retention.KeepsOneFewer`).
- *Narrow columns.* Several ClickHouse columns are narrower than the values put in them, the
  extended EDNS response code among them (`ClickHouseRows.NarrowingIsExactIff`,
  `ClickHouseRows.DecodedMayNotFit`).
- *Tags.* An empty tag and the literal text "unknown" print alike
  (`Escaping.TagsClashOnlyOnUnknown`). A newline in one of the seven tags is not escaped and
  splits the line in two; no field can do that (`EventLine.NewlineIff`).

## Model

| member | source | states |
|---|---|---|
| Correlator.KeyInjective | internal/usecase/correlator.go:84 | the text key "ip:id" is equal for two pairs only if address and identifier are equal, colons in IPv6 addresses included |
| Correlator.FoundIffLive | internal/usecase/correlator.go:80-103 | after any history, a pair is in the map exactly when some query stored on it has not been overwritten, answered or swept, and the entry found has that query's question, address, identifier and time |
| Correlator.MatchesIff | internal/usecase/correlator.go:62-116 | in any history a response is answered from an earlier query if and only if both are on one pair, no sweep between saw the query over age and no other operation between is on the pair |
| Correlator.MatchingIsOneToOne | internal/usecase/correlator.go:94-116 | a stored query answers at most one response and a response is answered by at most one query |
| Correlator.Accounting | internal/usecase/correlator.go:62-116 | stores = matches + evictions + overwrites + live entries, and lookups = matches + orphans, for every history |
| Correlator.LiveCount | internal/usecase/correlator.go:62-116 | the map has exactly as many entries as there are queries still live |
| Correlator.MatchedCount | internal/usecase/correlator.go:94-116 | as many queries end by a match as lookups report true |
| Correlator.LiveWithinStoredPairs | internal/usecase/correlator.go:84-91 | the map never holds more entries than distinct pairs were stored |
| Correlator.LiveAgeBound | internal/usecase/correlator.go:48-78 | with sweeps at most 10 s apart no live query is ever older than 40 s |
| Correlator.MatchAgeBound | internal/usecase/correlator.go:32-103 | with sweeps at most 10 s apart no response is matched to a query stored more than 40 s before |
| Correlator.EvictedOnlyWhenOld | internal/usecase/correlator.go:62-78 | an evicted query was live until a sweep that saw it older than 30 s |
| Correlator.MatchAgeBoundIsTight | internal/usecase/correlator.go:67 | a run with 10 s sweeps in which a match is exactly 40 s old, because the sweep compares strictly |
| Correlator.QueryCorrelator.constructor | internal/usecase/correlator.go:29-36 | a new correlator is empty and has no history |
| Correlator.QueryCorrelator.Store | internal/usecase/correlator.go:80-92 | the entry on the pair becomes this query, nothing else changes, and the map stays explained by the history |
| Correlator.QueryCorrelator.Lookup | internal/usecase/correlator.go:94-116 | true exactly when a live query was stored on the pair; the mismatch report compares with that query; only that entry is removed |
| Correlator.QueryCorrelator.Evict | internal/usecase/correlator.go:62-78 | exactly the entries older than 30 s are removed, whatever order the map is ranged in |
| PipelineMachine.FlagsKept | internal/usecase/pipeline.go:58-117 | every step keeps: channels closed in Shutdown's order, the wait group equal to the workers alive, queue within capacity, no worker past the Wait |
| PipelineMachine.LogsKept | internal/usecase/pipeline.go:104-172 | every step keeps: at each stage of processing, the events that reached it are those held past it plus those processed, as multisets |
| PipelineMachine.FifoKept | internal/usecase/pipeline.go:46-117 | every step keeps: accepted events = events received by workers, then the queue, in order |
| PipelineMachine.OffersKept | internal/usecase/pipeline.go:46-56 | every step keeps: offered = accepted + dropped on die + dropped on full + recovered |
| PipelineMachine.OrderKept | internal/usecase/pipeline.go:104-172 | with one worker every step keeps each stage's log equal to the processed events and the one held |
| PipelineMachine.HistoryKept | internal/usecase/pipeline.go:119-130 | every step keeps the correlator's history equal to the correlated events in order, with sweeps between, on a clock that never runs back |
| PipelineMachine.StepKeepsInv | internal/usecase/pipeline.go:46-172 | all of these together are kept by every arm of every select, by Run and by each statement of Shutdown |
| PipelineRuns.EventsAreConserved | internal/usecase/pipeline.go:46-117 | in every interleaving, offered events are accepted or refused by one arm, and accepted = in flight + processed + queued, the queue within its capacity |
| PipelineRuns.StorageLedger | internal/usecase/pipeline.go:165-172 | what a storage was handed = processed events + events whose worker is past that storage |
| PipelineRuns.LedgerAfterShutdown | internal/usecase/pipeline.go:77-95 | when Shutdown returns every received event was written once to every storage and the abandoned ones are the last accepted, at most queueSize |
| PipelineRuns.SingleWorkerKeepsOrder | internal/usecase/pipeline.go:104-117 | with at most one worker acceptance order survives to the end and to every storage |
| PipelineRuns.TwoWorkersOvertake | internal/usecase/pipeline.go:104-172 | with two workers any two events can reach the first storage in the other order |
| PipelineRuns.DomainOrderIff | internal/usecase/pipeline.go:58-172 | the events about each domain reach the storage in the order accepted, in every run, if and only if at most one worker is configured |
| PipelineRuns.CorrelationOrderIff | internal/usecase/pipeline.go:58-130 | the correlator sees events in the order accepted, in every run, if and only if at most one worker is configured |
| PipelineRuns.ResponseOvertakesQuery | internal/usecase/pipeline.go:104-130 | with two workers a response accepted after its query can be an orphan while the query stays live |
| PipelineRuns.CorrelatorSeesEvents | internal/usecase/pipeline.go:119-130 | in every interleaving the correlator is called once for each event correlated, in that order: a response is looked up and a query stored, under the event's own client address and identifier and with its question |
| PipelineRuns.ClosedMeansUnused | internal/usecase/pipeline.go:77-92 | once a storage is closed no worker can call its Write and no sweep can run |
| PipelineRuns.ProcessNeverBlocks | internal/usecase/pipeline.go:46-56 | in every state some arm of Process is ready |
| PipelineRuns.AcceptsIff | internal/usecase/pipeline.go:46-56 | in any state Process can accept an event if and only if the queue is open and has room or, being empty and the pipeline not cancelled, a worker waits at its select |
| PipelineRuns.RefusesIff | internal/usecase/pipeline.go:46-56 | it can drop one as too many if and only if the queue is full and neither channel closed, drop it on die if and only if die is closed, and panic and recover if and only if the queue is closed |
| PipelineRuns.OffersAreCalls | internal/usecase/pipeline.go:46-56 | in every run the events offered are the calls of Process, all of them and in order |
| PipelineRuns.RefusedOnlyWhen | internal/usecase/pipeline.go:46-56 | at every step of every run an event is dropped as too many only by a call that finds exactly queueSize events queued and neither channel closed, on die only after close(die), and recovered only after close(queue) |
| PipelineRuns.RoomyRunAcceptsAll | internal/usecase/pipeline.go:46-56 | in every run whose queue always has room and in which Shutdown is not called, the events accepted are the calls of Process, all of them and in order |
| PipelineRuns.WaitingWorkerIff | internal/usecase/pipeline.go:104-117 | a worker at its select can take exactly the front of the queue, and can return if and only if the context is cancelled or the queue is closed and empty |
| PipelineRuns.SweepsUntilStop | internal/usecase/correlator.go:38-60 | in every run the sweeper can sweep from Run until Stop closes its channel |
| PipelineRuns.StoragesCloseInTurn | internal/usecase/pipeline.go:77-95 | storages are closed one at a time, the first after the correlator has stopped, and Shutdown returns only when all are closed |
| PipelineRuns.NothingEntersAfterClose | internal/usecase/pipeline.go:46-56 | after close(queue) nothing is accepted in any continuation, and the queue only loses its front |
| PipelineRuns.ShutdownIsBounded | internal/usecase/pipeline.go:77-117 | after close(queue) workers, sweeper and Shutdown together take at most a fixed number of further steps, whatever is interleaved |
| PipelineRuns.ShutdownNeverStuck | internal/usecase/pipeline.go:77-117 | until Shutdown has returned some step towards its end is enabled |
| PipelineRuns.CanReturnWithoutDraining | internal/usecase/pipeline.go:77-109 | from every reachable state there is a run in which Shutdown returns and the queue is what it was |
| PipelineRuns.NothingLostIff | internal/usecase/pipeline.go:77-109 | read at any moment, the call of Shutdown included: with no further senders every shutdown drains the queue if and only if it is already empty |
| PipelineRuns.NothingLostWithSendersIff | internal/usecase/pipeline.go:46-109 | with senders still calling: if and only if it is empty and either closed or of capacity zero |
| PipelineRuns.ZeroLossFails | internal/usecase/pipeline.go:77-109 | a run with a worker in which an accepted event is abandoned |
| PipelineRuns.CorrelationAccounts | internal/usecase/pipeline.go:119-130 | in every interleaving, queries correlated = matches + evictions + overwrites + live entries, and responses = matches + orphans |
| PipelineRuns.CorrelationAccountsAfterShutdown | internal/usecase/pipeline.go:77-130 | the same accounts close over the processed events once Shutdown has returned |
| PipelineRuns.RunMatchesAreFresh | internal/usecase/correlator.go:48-103 | in every pipeline run with sweeps at most 10 s apart no match joins a query stored more than 40 s before |
| PipelineObject.Pipeline.constructor | internal/usecase/pipeline.go:26-44 | a new pipeline is the machine's initial state with an empty correlator and empty storages |
| PipelineObject.Pipeline.Run | internal/usecase/pipeline.go:58-75 | starts the sweeper and the workers as the machine's Run step |
| PipelineObject.Pipeline.Process | internal/usecase/pipeline.go:46-56 | each arm, the recovered panic included, changes the fields as the machine's step; which arm may be taken when is AcceptsIff and RefusesIff |
| PipelineObject.Pipeline.Receive | internal/usecase/pipeline.go:110-114 | a worker takes its own copy of the front of the queue |
| PipelineObject.Pipeline.Return | internal/usecase/pipeline.go:104-113 | a worker leaves on the cancelled context or on the closed and empty queue, and the wait group falls by one |
| PipelineObject.Pipeline.Correlate | internal/usecase/pipeline.go:120-130 | a response is looked up and a query stored, as the next operation of the history |
| PipelineObject.Pipeline.Begin | internal/usecase/pipeline.go:119-163 | the event is correlated and the worker's copy enriched |
| PipelineObject.Pipeline.WriteNext | internal/usecase/pipeline.go:165-172 | the worker's copy is appended to the next storage, which stays the enriched image of its ledger |
| PipelineObject.Pipeline.Advance | internal/usecase/pipeline.go:119-172 | processEvent action by action, with correlator, resolver and storages, refines the machine's step |
| PipelineObject.Pipeline.Sweep | internal/usecase/correlator.go:53-58 | a tick runs the sweep on the shared correlator |
| PipelineObject.Pipeline.SweeperReturns | internal/usecase/correlator.go:43-55 | the sweeper leaves only after Stop has closed its channel |
| PipelineObject.Pipeline.CancelContext | internal/usecase/pipeline.go:78-80 | the context is cancelled first, if Run has made one |
| PipelineObject.Pipeline.CloseDie | internal/usecase/pipeline.go:81 | then die is closed |
| PipelineObject.Pipeline.CloseQueue | internal/usecase/pipeline.go:82 | then the queue is closed |
| PipelineObject.Pipeline.PassWait | internal/usecase/pipeline.go:83 | the first wait is passed only when no worker is left |
| PipelineObject.Pipeline.SignalSweeper | internal/usecase/correlator.go:43-44 | Stop closes the sweeper's channel |
| PipelineObject.Pipeline.PassSweeperWait | internal/usecase/correlator.go:45 | the second wait is passed only when the sweeper has left |
| PipelineObject.Pipeline.CloseNext | internal/usecase/pipeline.go:87-94 | storages are closed one by one, then Shutdown returns |
| PipelineObject.Pipeline.ShutdownNext | internal/usecase/pipeline.go:77-95 | Shutdown statement by statement, in this order |
| PipelineObject.Pipeline.StorageHolds | internal/usecase/pipeline.go:132-172 | at every moment event i of a storage is event i of its log, enriched; the log holds the events processed and those whose worker is past that storage |
| PipelineObject.Pipeline.StoragesAgree | internal/usecase/pipeline.go:77-172 | once Shutdown has returned all storages hold the same enriched events, each once, and the other accepted ones are the queue |
| Enrichment.EnrichmentOnlyAddsGeo | internal/usecase/pipeline.go:132-163 | enrichment changes location data only, and keeps the header counts equal to the records |
| Enrichment.EnrichmentIdempotent | internal/usecase/pipeline.go:132-163 | enriching an event twice is enriching it once |
| Enrichment.RecordLocation | internal/usecase/pipeline.go:143-161 | record i of every section gets country, city and network from the three answers for its own address, in that order, if and only if it is of type A or AAAA, its data is an IP address and the answers are not all empty; otherwise it keeps what it had, and nothing else of it changes |
| Enrichment.ClientLocation | internal/usecase/pipeline.go:132-141 | the event's own location is what the lookup of its client address finds, unchanged if that fails; without a resolver nothing changes |
| Enrichment.EnrichSection | internal/usecase/pipeline.go:143-161 | one section's array, updated in place, ends as the section enriched record by record, in the sense of RecordLocation |
| Enrichment.EnrichInPlace | internal/usecase/pipeline.go:143-162 | all sections, in any order of the map, end enriched without touching one another |
| Enrichment.Slices | internal/usecase/pipeline.go:143-145 | the sections as separate arrays that the loops may write through |
| Enrichment.EnrichEvent | internal/usecase/pipeline.go:132-163 | client lookup and in-place loops together compute the enriched event, which RecordLocation and ClientLocation describe field by field |
| EndToEnd.DecodedMatchIff | internal/adapter/inbound/dnstap/server.go:165-252 | in any history a decoded response is matched to an earlier decoded query if and only if their frames carry the same client address and identifier, no sweep between saw the query over age, and no other event between is on that pair |
| EndToEnd.OffersAreSettled | internal/adapter/outbound/kafka/producer.go:161-169 | over any run the events written are, as a multiset, those accepted and those dropped |
| EndToEnd.PipelineAccount | internal/usecase/pipeline.go:46-172 | after Shutdown each event offered was refused by one arm, is left in the queue, or was written once, as multisets |
| EndToEnd.ProducerAccount | internal/adapter/outbound/kafka/producer.go:161-288 | after Close each event written was dropped, is left in the queue or was taken, as multisets, and the batches are the encodings of those taken, in order |
| EndToEnd.EveryEventIsAccountedFor | internal/usecase/pipeline.go:46-172 | over a pipeline run and the producer run behind it both ledgers hold event by event, joined by enrichment; both queues are bounded and the sizes add up |
| Batching.StepKeepsInv | internal/adapter/outbound/kafka/producer.go:161-215 | every arm keeps: batches flushed, then the buffer, are the encodings of the events taken, in order; no batch is empty or over the limit |
| Batching.OfferSettles | internal/adapter/outbound/kafka/producer.go:161-169 | in every state a write is accepted if and only if fewer than 100000 events are queued and dropped if and only if not; no other action does either |
| Batching.FlushedWhen | internal/adapter/outbound/kafka/producer.go:184-213 | a batch leaves exactly when a message fills the buffer, or a tick or the end finds something in it; it is the whole buffer |
| Batching.MessagesAreConserved | internal/adapter/outbound/kafka/producer.go:161-278 | at every step of every run, flushed batches ++ buffer ++ encodings of the queue = encodings of everything accepted, in order; after the end the rest is a queue suffix of at most 100000 |
| Batching.CloseDrainsIff | internal/adapter/outbound/kafka/producer.go:192-196 | read at any moment, the call of Close included: the whole queue is sure to be flushed if and only if it is already empty |
| Batching.TotalEncoding | internal/adapter/outbound/clickhouse/writer.go:269-303 | in the ClickHouse flusher, which encodes nothing, the encoded sequence is the event sequence itself, so conservation there is of events |
| Batching.EmptyStaysEmpty | internal/adapter/outbound/kafka/producer.go:192-213 | without further writes an empty queue stays empty in every continuation |
| Retriable.RetriedIsMentioned | internal/adapter/outbound/kafka/producer.go:217-238 | every error that is retried mentions one of the four transient codes |
| Retriable.MentionedIsRetried | internal/adapter/outbound/kafka/producer.go:217-238 | an error that mentions a transient code is retried if no list holding a code is joined behind another list |
| Retriable.RetriableIffMentioned | internal/adapter/outbound/kafka/producer.go:217-238 | an error's shape has retried = mentioned for every choice of its codes if and only if no list holding a code is joined behind another list |
| Retriable.JoinHidesSecondList | internal/adapter/outbound/kafka/producer.go:229-236 | a concrete joined error that mentions a transient code and is not retried |
| Delivery.AttemptsMade | internal/adapter/outbound/kafka/producer.go:240-266 | a second and a third attempt are made if and only if every error before is one that is retried; the flush succeeds if and only if the last attempt made does; the broker gets what each attempt lands, in turn |
| Delivery.LandedInOrder | internal/adapter/outbound/kafka/producer.go:247-248 | one attempt lands messages in batch order, each at most once |
| Delivery.CopyBounds | internal/adapter/outbound/kafka/producer.go:240-266 | each message of a batch has at most three copies at the broker, at least one when the flush ends without error, and no other message is touched |
| Delivery.BatchesStayInOrder | internal/adapter/outbound/kafka/producer.go:184-190 | all copies of a batch come before every copy of a later batch |
| Delivery.DeliveryOverAllBatches | internal/adapter/outbound/kafka/producer.go:184-266 | over all flushes: one to three copies of each message of a successful batch, each before every message of later batches |
| Delivery.AdverseBreaksOrder | internal/adapter/outbound/kafka/producer.go:240-257 | for any two messages of a batch there are broker answers under which the later one is delivered first |
| Delivery.KeyOrderGuaranteedIff | internal/adapter/outbound/kafka/producer.go:203-257 | order per key within a batch is guaranteed against every broker if and only if no two messages share a key |
| KeyOrder.KeyOrderIff | internal/adapter/outbound/kafka/producer.go:161-266 | over all runs of the flusher and all brokers no message is overtaken by a later one with its key if and only if a batch holds at most one message, given two encodable events with one key |
| DeliveryOrder.MessageAt | internal/adapter/outbound/kafka/producer.go:184-190 | a copy's message stands at the place that its batch and index give in the sequence of all messages flushed |
| DeliveryOrder.CopiesFollowMessages | internal/adapter/outbound/kafka/producer.go:184-266 | copies of different batches arrive in the order of their messages in that sequence |
| DeliveryOrder.OriginIff | internal/adapter/outbound/kafka/producer.go:197-202 | an event taken has given a message if and only if it can be encoded |
| KafkaProducer.Broker.WriteMessages | internal/adapter/outbound/kafka/producer.go:247-248 | the broker appends, in order, the messages of the slice that it accepts |
| KafkaProducer.FlushBatch | internal/adapter/outbound/kafka/producer.go:240-266 | the attempt loop appends to the broker exactly the slice's messages that at most three attempts land, and succeeds exactly when the last attempt does |
| KafkaProducer.Producer.constructor | internal/adapter/outbound/kafka/producer.go:36-43 | a new producer is the flusher's start with messages keyed by question name |
| KafkaProducer.Producer.Write | internal/adapter/outbound/kafka/producer.go:161-169 | accepts or drops without blocking, as the flusher's Offer step |
| KafkaProducer.Producer.Flush | internal/adapter/outbound/kafka/producer.go:184-190 | the filled part of the slice is handed over as one batch and the same slice is emptied in place |
| KafkaProducer.Producer.Append | internal/adapter/outbound/kafka/producer.go:203-206 | appending extends the contents by one message, in place while there is room |
| KafkaProducer.Producer.Receive | internal/adapter/outbound/kafka/producer.go:197-209 | takes the front event, skips it if it cannot be marshalled, and flushes a full buffer; TakenEventsAreMarshalled says what the messages hold |
| KafkaProducer.Producer.Tick | internal/adapter/outbound/kafka/producer.go:210-211 | a tick flushes what is buffered |
| KafkaProducer.Producer.CloseDone | internal/adapter/outbound/kafka/producer.go:276-277 | closes done and changes nothing else |
| KafkaProducer.Producer.Stop | internal/adapter/outbound/kafka/producer.go:194-196 | the last flush empties the buffer and the goroutine is gone, the queue left as it is |
| KafkaProducer.Producer.TakenEventsAreMarshalled | internal/adapter/outbound/kafka/producer.go:197-206 | in every state each message made is a different event taken, its value what marshalling that event gives and its key its question name, in the order taken; exactly the events taken that cannot be marshalled gave none |
| KafkaProducer.Producer.DeliveriesFollowQueue | internal/adapter/outbound/kafka/producer.go:161-266 | in every state each message the broker has received has as value what marshalling an accepted event gives and as key that event's question name, whatever has since been written into the reused slice, and copies of different batches arrived in the order in which the events were accepted |
| KafkaProducer.LogGrows | internal/adapter/outbound/kafka/producer.go:240-266 | the broker's log over one more batch is the log before it and that batch's copies |
| ClickHouseRows.EventBagSize | internal/adapter/outbound/clickhouse/writer.go:401-427 | an event whose counts match has as many answer rows as its three counts add up to |
| ClickHouseRows.RowConservation | internal/adapter/outbound/clickhouse/writer.go:339-428 | a batch has one raw row per event and as many answer rows as all its counts together |
| ClickHouseRows.DecodedRowsConserved | internal/adapter/outbound/clickhouse/writer.go:339-428 | the same for every batch of events that came out of the decoder and the enrichment |
| ClickHouseRows.NarrowingIsExactIff | internal/adapter/outbound/clickhouse/writer.go:345-397 | a raw row shows the event's numbers if and only if each fits its column |
| ClickHouseRows.DecodedMayNotFit | internal/adapter/outbound/clickhouse/writer.go:374 | a frame whose decoded response code 256 is stored as 0 |
| ClickHouseRows.AnswerRowIsExactIff | internal/adapter/outbound/clickhouse/writer.go:403-423 | an answer row gives back its record, class apart, if and only if the lifetime fits 32 bits |
| ClickHouseRows.SectionRowsShow | internal/adapter/outbound/clickhouse/writer.go:401-426 | row i of a section shows record i, column by column: its own texts and location, the lowest 32 bits of its lifetime, the event's client, question and time |
| ClickHouseRows.BatchAnswersShow | internal/adapter/outbound/clickhouse/writer.go:339-428 | a row is among the answers of a batch exactly as many times as the batch's events have records that it shows |
| ClickHouseRows.BatchRawShows | internal/adapter/outbound/clickhouse/writer.go:339-400 | raw row k of a batch shows event k, its numbers by their lowest 8 or 16 bits, at its own time or the clock's if that is Go's zero time |
| ClickHouseRows.AppendSection | internal/adapter/outbound/clickhouse/writer.go:402-426 | appends the section's rows, which SectionRowsShow describes, in order, and fails exactly when one of them is refused |
| ClickHouseRows.AppendAnswers | internal/adapter/outbound/clickhouse/writer.go:401-427 | whatever order the map is ranged in, appends the event's answer rows as a multiset, and fails exactly when one is refused |
| ClickHouseRows.BuildRows | internal/adapter/outbound/clickhouse/writer.go:339-428 | builds both row lists of the batch, and fails exactly when some row is refused |
| ClickHouseRows.FlushBatch | internal/adapter/outbound/clickhouse/writer.go:305-437 | nil exactly when there was nothing to do or every call succeeded; then both tables have the whole batch, whose rows BatchRawShows and BatchAnswersShow describe; on error each table has all of its rows or none, and never answers without raw rows |
| Escaping.FourPassesAreOne | internal/adapter/outbound/influxdb/writer.go:336-345 | the four successive replacements are one pass that escapes each special character once |
| Escaping.UnescapeEach | internal/adapter/outbound/influxdb/writer.go:340-344 | the escape has a left inverse on every string, trailing backslashes included |
| Escaping.TagsClashOnlyOnUnknown | internal/adapter/outbound/influxdb/writer.go:336-345 | two tags print alike if and only if they are equal or both are among "" and "unknown" |
| Escaping.FindPastEscaped | internal/adapter/outbound/influxdb/writer.go:336-345 | a scan for an unescaped space, comma or equals sign finds none inside an escaped tag |
| Escaping.QuoteBodyReads | internal/adapter/outbound/influxdb/writer.go:329-334 | every string, printable or not, is read back from its quoted form |
| Escaping.QuotedSize | internal/adapter/outbound/influxdb/writer.go:329-334 | each character is quoted as itself if printable, by a backslash and one character if it is a quote, a backslash or one of the seven named controls, and otherwise by \x, \u or \U with two, four or eight digits |
| Escaping.FindPastQuoted | internal/adapter/outbound/influxdb/writer.go:329-334 | the closing quote is the first unescaped quote |
| Escaping.SimpleReadIff | internal/adapter/outbound/influxdb/writer.go:329-334 | a reader that knows only the two basic escapes recovers a field if and only if all of it is printable |
| LineProtocol.TagsReadBack | internal/adapter/outbound/influxdb/writer.go:297-308 | the printed tag list is read back tag by tag up to the space that ends it |
| LineProtocol.FieldsReadBack | internal/adapter/outbound/influxdb/writer.go:244-323 | the printed field list, strings with commas, spaces and quotes included, is read back field by field |
| LineProtocol.MeasurementEnds | internal/adapter/outbound/influxdb/writer.go:231-236 | the reader finds the end of the measurement if and only if it has no bare comma or space and no hanging backslash |
| LineProtocol.LineRoundTrip | internal/adapter/outbound/influxdb/writer.go:326 | a printed line is read back whole if and only if the measurement is clean |
| EventLine.EventRoundTrip | internal/adapter/outbound/influxdb/writer.go:238-327 | for every event: 7 tags, 37 fields, the optional 6 and the timestamp come back if and only if the measurement is clean |
| EventLine.TimestampIs | internal/adapter/outbound/influxdb/writer.go:239-242 | the time printed is the event's as a 64-bit count of nanoseconds, or the present if that count is zero |
| EventLine.NewlineIff | internal/adapter/outbound/influxdb/writer.go:238-345 | a line holds a newline if and only if the measurement setting or one of the seven tags does |
| EventLine.PolicyReads | internal/adapter/outbound/influxdb/writer.go:310-324 | the policy block, left out when all six texts are empty, still determines all six |
| EventLine.EventIsReadBack | internal/adapter/outbound/influxdb/writer.go:238-327 | the event rebuilt from the line, each value taken from its place and only under its printed name, is the event printed up to what a line shows; the measurement is the setting or "dns_query", and the time the event's or, if that counts as zero, the present |
| EventLine.EqualLinesIff | internal/adapter/outbound/influxdb/writer.go:238-327 | two events print the same line if and only if all that a line shows of them agrees |
| RotatingFile.Writer.constructor | internal/adapter/outbound/file/writer.go:35-41 | a new writer has no file |
| RotatingFile.Writer.Migrate | internal/adapter/outbound/file/writer.go:47-73 | opening keeps or creates the file and takes its length as the size, for every combination of failing calls; after a failed Stat the size stays zero |
| RotatingFile.Writer.Rotate | internal/adapter/outbound/file/writer.go:105-141 | fields and directory after a rotation, for every combination of failing calls; success exactly for a nil file or a usable new one |
| RotatingFile.Writer.Write | internal/adapter/outbound/file/writer.go:75-103 | fields, directory and result of a write, for every combination of failing calls, on a usable, nil or closed file |
| RotatingFile.LostFileStaysLost | internal/adapter/outbound/file/writer.go:84-99 | without a usable file no further Write stores anything; it reports success if the file is nil and failure if it is closed |
| RotatingFile.FileLostIff | internal/adapter/outbound/file/writer.go:88-135 | a Write leaves the file closed if and only if a rotation is due and Close fails, and nil if and only if Close succeeds and the rename or the reopening fails |
| RotatingFile.NilMeansStored | internal/adapter/outbound/file/writer.go:75-103 | while the file is usable a nil error means the active file now ends with the record |
| RotatingFile.NilReportedIff | internal/adapter/outbound/file/writer.go:75-103 | Write returns nil if and only if the record can be marshalled and the file is nil, or it is usable, the record gets out whole and no call of a due rotation fails; otherwise an unusable file or an unmarshalled record changes nothing |
| RotatingFile.CompressionLeaves | internal/adapter/outbound/file/writer.go:143-167 | the original is removed if and only if compression went well to its end; otherwise it stays whole beside a copy that is untouched, cut short or complete |
| RotatingFile.RotationKeepsText | internal/adapter/outbound/file/writer.go:105-141 | whatever calls fail, a rotation that renames the file keeps its text under the backup's name or compressed and leaves an empty active file or none; one that does not changes no file |
| RotatingFile.WriteKeepsText | internal/adapter/outbound/file/writer.go:75-141 | whatever calls fail, a Write to a usable file loses no text: the file's text stays or is set aside, exactly when MaxSizeMB * 1048576 bytes are reached and Close and the rename succeed; added is exactly what gets out of the record; size follows; no other file is touched |
| RotatingFile.ExtFromLastDot | internal/adapter/outbound/file/writer.go:117-118 | the extension that the backup's name keeps starts at the last dot |
| RotationRuns.WriteFollows | internal/adapter/outbound/file/writer.go:75-141 | one write without failures does to directory and size what appending to the log of records does |
| RotationRuns.RunFollows | internal/adapter/outbound/file/writer.go:75-141 | a whole run with distinct rotation seconds leaves exactly the old files, the rotated files and the active one |
| RotationRuns.RotationLosesNothing | internal/adapter/outbound/file/writer.go:75-167 | rotated files in order, decompressed, then the active file = initial content, then every record with its newline |
| RotationRuns.RotationSplitsNothing | internal/adapter/outbound/file/writer.go:75-167 | each rotated file holds whole records under its stamp, older files are untouched, and size = length of the active file |
| RotationRuns.SplitRecovers | internal/adapter/outbound/file/writer.go:95 | splitting at newlines gives back the records, which have no raw newline (section 7 of RFC 8259) |
| RotationBytes.SizesBounded | internal/adapter/outbound/file/writer.go:88-100 | every file opened by a rotation was under the limit before its last record, and every file rotated away had reached it |
| RotationBytes.UnderLimitBound | internal/adapter/outbound/file/writer.go:88-100 | hence its length is below the limit plus its last record |
| RotationBytes.ActiveFileBounded | internal/adapter/outbound/file/writer.go:88-136 | in every run without failures, from any directory and with any stamps, size is the active file's length, and after a rotation it is below the limit plus the last record |
| RotationBytes.RotationKeepsBytesIff | internal/adapter/outbound/file/writer.go:116-136 | a rotation keeps the directory's bytes if and only if the names it moves to hold nothing; otherwise exactly those bytes go |
| RotationBytes.BytesBalance | internal/adapter/outbound/file/writer.go:75-141 | in every run without failures the directory plus what was overwritten is the old directory plus everything written |
| RotationBytes.BytesKeptIff | internal/adapter/outbound/file/writer.go:75-141 | a run of writes keeps every byte if and only if its rotations fall in different seconds; otherwise at least a whole backup is gone |
| RotationBytes.SameSecondLosesBackup | internal/adapter/outbound/file/writer.go:116-123 | a run of three writes in one second that loses its first backup |
| Retention.Cleanup | internal/adapter/outbound/file/writer.go:169-222 | removes exactly the listed backups with at least MaxBackups listed backups of greater name, or over age |
| Retention.IsBackupIff | internal/adapter/outbound/file/writer.go:182-201 | cleanup lists exactly the names that start with the file's up to a dot and with compression end in ".gz", but for that name with ".gz" alone |
| Retention.ForeignFilesStay | internal/adapter/outbound/file/writer.go:182-201 | a file whose name does not start so, or with compression does not end so, is never removed |
| Retention.TooOldIff | internal/adapter/outbound/file/writer.go:171-221 | a backup is over age exactly when the limit is positive, its time can be read and lies more than that many times 86400 s back |
| Retention.SortIsDescending | internal/adapter/outbound/file/writer.go:203 | the sort keeps the names and puts them in strictly descending order |
| Retention.PositionIsRank | internal/adapter/outbound/file/writer.go:205-209 | a name's position in the sorted list is the number of greater names |
| Retention.StampOrder | internal/adapter/outbound/file/writer.go:116 | stamps of four-digit years sort as the seconds they name |
| Retention.LayoutOf | internal/adapter/outbound/file/writer.go:116 | the stamp of 2 January 2006, 15:04:05, is 20060102T150405Z |
| Retention.NameOrder | internal/adapter/outbound/file/writer.go:116-119 | backup names sort as their rotation times |
| Retention.KeepsNewest | internal/adapter/outbound/file/writer.go:169-222 | with compression, on the writer's own files, a backup goes if and only if MaxBackups were rotated after it or it is over age; the active file never goes |
| Retention.KeepsOneFewer | internal/adapter/outbound/file/writer.go:182-209 | without compression the active file takes a place: a backup goes if and only if MaxBackups - 1 were rotated after it or it is over age |
| RotationRetention.RunLeavesOwnFiles | internal/adapter/outbound/file/writer.go:75-141 | every run without failures whose rotations go forward in time, from an empty archive, leaves a directory of the kind that cleanup's results speak of |
| RotationRetention.NewestChunksStay | internal/adapter/outbound/file/writer.go:75-222 | after such a run and a cleanup, the file of rotation k, which held its records whole, is removed if and only if at least as many rotations as there are places came after it or it is over age |
| DnstapDecode.AppendRR | internal/adapter/inbound/dnstap/server.go:254-266 | the section grows by the records in order, other sections and fields untouched; MergeHeader says what each record holds |
| DnstapDecode.ParseEDNS | internal/adapter/inbound/dnstap/server.go:342-364 | options are appended to those already there and the subnet is the last one seen |
| DnstapDecode.ParseDNS | internal/adapter/inbound/dnstap/server.go:209-252 | the event after one message, parsed or not, as a function of the event before it |
| DnstapDecode.FillTapInfo | internal/adapter/inbound/dnstap/server.go:123-163 | the tap block with socket, times and policy texts in every case of the switch |
| DnstapDecode.DecodeToEvent | internal/adapter/inbound/dnstap/server.go:115-207 | no event exactly for a tap without a message, otherwise the decoded event, which the Merge and Decoded results describe |
| DnstapDecode.DecodedCountsMatch | internal/adapter/inbound/dnstap/server.go:209-266 | every decoded event has an, ns and ar counts equal to its lists, and no other section |
| DnstapDecode.MergeHeader | internal/adapter/inbound/dnstap/server.go:194-249 | header, counts and records come from the last message that parses: record i of each section has the name, lifetime and data of record i of the message, its type and class as texts and no location, and there is no section without records; the response code comes only from the response, Malformed is the OR of both failures |
| DnstapDecode.MergeQuestion | internal/adapter/inbound/dnstap/server.go:238-243 | the question is that of the last parsed message that has one |
| DnstapDecode.MergeEDNS | internal/adapter/inbound/dnstap/server.go:342-364 | options are those of the query then those of the response, each with its code and text; the client subnet is the last one among them; the scalars come from the last OPT record |
| DnstapDecode.DecodedIsMerged | internal/adapter/inbound/dnstap/server.go:115-207 | the DNS and EDNS blocks of a decoded event are its query and response merged, in that order, over zero values |
| DnstapDecode.DecodedNetwork | internal/adapter/inbound/dnstap/server.go:165-192 | the network block of a decoded event has the frame's addresses and ports, and family and protocol by name |
| DnstapDecode.DecodedTapInfo | internal/adapter/inbound/dnstap/server.go:123-163 | the tap block of a decoded event has the frame's texts, the peer's host and port as far as they were split, the times of the message and the five texts that Extra names |
| Latency.LatencyMsIsClose | internal/adapter/inbound/dnstap/server.go:145-152 | latency in ms is the saturated difference truncated toward zero: within 1 ms, same sign or zero, for any 32-bit nanosecond counts and every second that time.Unix can hold |
| Latency.TimestampIs | internal/adapter/inbound/dnstap/server.go:145-158 | the timestamp is the response's time, without one the query's, without either the present, for every time in range; without both there is no latency |
| Latency.SubSaturates | internal/adapter/inbound/dnstap/server.go:150 | a difference of two times that does not fit 64 bits is held at the nearer end |
| Latency.LatencyMsMonotone | internal/adapter/inbound/dnstap/server.go:145-152 | a later response never has a smaller latency or timestamp |
| Latency.LatenciesAgree | internal/adapter/inbound/dnstap/server.go:151-152 | the seconds and the milliseconds differ by less than 1 ms, for all inputs |
| PolicyExtra.ParseExtra | internal/adapter/inbound/dnstap/server.go:366-385 | the loop over words computes the fold of the assignments they name |
| PolicyExtra.LastWordWins | internal/adapter/inbound/dnstap/server.go:366-385 | each attribute has the value of the last word naming it or its old value, and nothing else changes |
| PolicyExtra.AttributesByName | internal/adapter/inbound/dnstap/server.go:366-385 | each of the five texts is what follows "peer-name=", "policy-rule=", "policy-type=", "policy-match=" or "policy-value=" in the last word that starts with it, or what it was |
| PolicyExtra.FieldsOfSpread | internal/adapter/inbound/dnstap/server.go:367 | words spread out by any white space are split back into the same words |
| PolicyExtra.FieldsOfJoined | internal/adapter/inbound/dnstap/server.go:367 | words joined by spaces are split back into the same words |
| PolicyExtra.ExtraRoundTrip | internal/adapter/inbound/dnstap/server.go:366-385 | attributes written as Extra text are read back, whatever '=' their values contain |

## Left out

- Library code: Kafka, ClickHouse and HTTP clients, MaxMind, framestream, protobuf and DNS unpacking appear as oracles that succeed, fail, or accept a subset.
- One WriteMessages call is taken to put a message at most once, in batch order, and nothing after it has returned; retries inside the Kafka library are not modelled.
- JSON text is opaque (a partial function that never prints a raw newline), gzip is an invertible function, `%f` an opaque token without delimiters, and the calendar behind a rotation stamp is given as six numbers.
- Migrate functions other than the file writer's, SQL text and column order, retention policies and buckets: plumbing without an invariant.
- internal/adapter/outbound/influxdb_v2/writer.go has the same printer as version 1; internal/adapter/inbound/kafka/consumer.go rests on offset commits that cannot be seen; main, configuration, logging and Health are wiring.
- rdataToString and svcbString: record data is opaque text.
- A second call of Shutdown or Close, which would close a closed channel, and a call of Run after Shutdown.
- Storage writes are single steps that end: the errors they return are only logged, so the pipeline model does not look at them.
- The ClickHouse flusher goroutine has no class of its own: its queue and buffer are those of `Batching` with limit 1000 and the identity as encoding.
- Retention.Cleanup: does not model a removal that fails or a rotation during the listing, because the listing is taken as one read.
- Latency.LatencyMsIsClose: seconds above 2^63 - 1 - 62135596800 are excluded, because there the library's own time representation overflows.
- The 64-bit products of a size limit over 8e12 MB and of an age limit over 106751 days.
- ClickHouseRows.FlushBatch: a send is taken to put all of a batch's rows in its table or none, even when it reports an error.
- Other programs that move or delete the writer's files.
- Invalid UTF-8 in a quoted field.
- The logged details of correlation mismatches, and log messages in general.
