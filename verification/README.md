# Middy: models of its stateful protocols

Dafny models of the parts of Middy that hold a protocol or an exact computation,
with the properties their comments promise proved for every input, run and
interleaving. `dafny verify dfyconfig.toml` checks all of it.

Code that changes state in place is a class whose methods are tied to a pure
step function of a state value (`State()`); the properties of runs are lemmas
about that function. What a step does is also stated on the fields of the state, by
lemmas with names like `AwaitedDoes`, and what a run comes to from its events, by
lemmas with names like `EveryRunSettles`. Waiting is explicit: an asynchronous
function is cut at its awaits, and a run is any list of events in any order. What
the services, the clock and the handlers do are the events' arguments.

| file | models |
|---|---|
| ShardPoller | the Kinesis and DynamoDB Streams poll loop |
| KafkaPoller, MqPoller, SqsPoller | the Kafka, RabbitMQ and ActiveMQ pollers, and the SQS acknowledgement |
| BatchHandler, BatchFailures | settling the records of a batch, building and reading the partial response |
| KafkaOffsets | the Kafka response behind the builder, which names offsets by `Number` |
| Primary | the primary process of the batch runner |
| Engine, MiddlewareStack | `runRequest`, building a stack |
| Contexts, Invocations | contexts and namespaces, of nested invocations and of any number at once |
| StreamWriter, Utf16 | streaming a string body |
| LeasedClients | the clients shared by rds, and by dsql with the same code |
| JwksResolver, AppConfig | the two single-flight fetchers |
| RoutePattern, Router | compiled routes and dispatch |
| ForwardedFor, AtomicAmount, CfnResponse | the forwarded hop, x402 amounts, the CloudFormation body |
| Text, Sequences, Numbers, Wrappers | shared helpers |

## Where the code does not do what is said of it

- A streamed string whose chunk boundary splits a surrogate pair is sent as
  other bytes (`StreamWriter.BytesSentExactly` says exactly when,
  `StreamWriter.StraddlingPair` names one).
- The comment at packages/http-router/index.js:153 says the slash-count filter
  never changes the choice. That holds of a route if and only if its pattern does
  not end in a segment that takes the empty text (`Router.FilterFreeIff`,
  `Router.FilterFreeExactly`): a slash at the end, which the option schema rules
  out and building the router does not, or braces that start with `!`, which both
  let through (`RoutePattern.TurnedAway`).
- The comment at packages/http-router/index.js:235 says that patterns alike but for
  the names of their parameters accept exactly the same requests, so they count as
  duplicates. They do if and only if their parameters are of the same kinds or
  neither accepts any (`RoutePattern.SameRequestsIff`): braces that start with `=`
  or `!` become a look behind.
- The slash added as optional at packages/http-router/index.js:234 is needed by some
  requests, if and only if a final `{proxy+}` comes after a segment that takes only
  the empty text, with another kind before that (`RoutePattern.SlashOptionalIff`);
  for all other routes, static ones and those of a fixed depth included, it is
  optional (`Router.OptionalSlash`).
- A matched route whose pattern has no named group throws a TypeError at
  packages/http-router/index.js:163 (`Router.Router.Dispatch`).
- The comment at packages/http-jwt/index.js:276 says exactly one of cache and
  error is set in the cooldown. That holds if and only if all fetches settled so
  far ended alike (`JwksResolver.ExactlyOneRemembered`); otherwise both are set,
  as in `JwksResolver.BothRemembered`.
- Records can be passed over without being delivered: never, whatever happens, if
  and only if the start is fixed on Kinesis or is the end of the shard
  (`ShardPoller.NothingPassedOverIff`). From `LATEST` a run passes one over if and
  only if a new iterator is found further on before the first batch
  (`ShardPoller.PassesOverIff`).
- A request that leases a second time before it releases leaves the count of the
  client it held one too high, for good (`LeasedClients.SurplusIsDisplacements`);
  the counts are exact if and only if none does
  (`LeasedClients.ExactIffLeasesOnce`). A client with such a surplus is never ended
  any more (`LeasedClients.SecondLeaseLeaks`, and `LeasedClients.LeakedClient` for a
  run); it is still never ended while held.
- The comment at packages/ecs-batch/pollSqs.js:221 says every group is still sent
  for deletion. A rejected request is the last one sent
  (`SqsPoller.SqsPoller.Acknowledge`).
- Two records with one identifier, one fulfilled and one not, are both acted on
  as failed (`BatchFailures.EndToEnd`).
- The Kafka response names an offset by `Number`
  (packages/event-batch-response/index.js:35), the poller by its digits
  (packages/ecs-batch/pollKafka.js:194). The two agree below 2^53, where nothing is
  lost (`KafkaOffsets.NothingSlipsBelow`). From there on the right records are acted
  on if and only if the failed ones are rendered exactly
  (`BatchFailures.EndToEndAs`), and a failed message can be committed without a
  report (`KafkaOffsets.RoundedUpIsCommitted`) or a fulfilled one held back
  (`KafkaOffsets.RoundedDownHolds`); `KafkaOffsets.LetsThroughIff` says exactly when
  a message slips through, `KafkaOffsets.OffsetsLetThroughIff` in the offsets' own
  digits.
- A Kafka message that was resolved and is brought again can fail after it was
  resolved; its latest delivery stays settled if and only if no batch brings one
  again (`KafkaPoller.LatestIff`).

## Model

| member | source | states |
|---|---|---|
| `ShardPoller.EveryRunIsSafe` | packages/ecs-batch/pollKinesis.js:181-272 | Every run from any start, over batches acknowledged, partly failed, thrown or answered invalidly, empty reads, expiries, errors and aborts: each record behind the iterator was delivered and its latest delivery succeeded or is named in a report, unless it was passed over by a floating start or trimmed; from a fixed start on Kinesis nothing is passed over; with M retries and N records at most N*(M+1) batches are delivered |
| `ShardPoller.EveryRunSettles` | packages/ecs-batch/pollKinesis.js:181-272 | The same, from the script: a record behind the iterator was delivered, and in the last batch that delivered it its handler did not throw and the response was valid and did not name it; or a report names it; or it was passed over |
| `ShardPoller.UnansweredBatch` | packages/ecs-batch/pollKinesis.js:228-270 | After a batch whose handler threw or whose response is invalid none of its records is done: they all wait, the iterator and the reports as they were, or one new report is the whole batch |
| `ShardPoller.GoodBatchDoes` | packages/ecs-batch/pollKinesis.js:231-252 | A batch without a failed record is passed, each of its records done, with no report and the retry left alone |
| `ShardPoller.SpentBatchDoes` | packages/ecs-batch/pollKinesis.js:236-252 | When the retries at the first failed record are spent, exactly the failed records are reported, in order, and the batch is passed |
| `ShardPoller.FailedBatchDoes` | packages/ecs-batch/pollKinesis.js:253-270 | With retries left nothing is reported: the first failed record is read next, with its attempt counted, on from one at the same record or else anew; trimmed meanwhile, the failed records are reported |
| `ShardPoller.AbortedBatchDoes` | packages/ecs-batch/pollKinesis.js:228-228 | A batch after which the loop was aborted settles nothing and moves nothing |
| `ShardPoller.OtherPassesDo` | packages/ecs-batch/pollKinesis.js:190-215 | An error fails the poll, an abort ends it, an empty read changes nothing and ends it only on a closed shard |
| `ShardPoller.ShardPoller.Poll` | packages/ecs-batch/pollKinesis.js:190-271 | The poll loop as an in-place loop ends in exactly the state and with the exit the run specification gives, for every script of passes |
| `ShardPoller.ShardPoller.Deliver` | packages/ecs-batch/pollKinesis.js:216-271 | One batch: yielded, acknowledged or left, then acted on; an unacknowledged batch counts every record as failed |
| `ShardPoller.ShardPoller.Act` | packages/ecs-batch/pollKinesis.js:229-270 | No failure advances; a spent retry limit reports the failed records and advances; otherwise the loop goes back to the lowest failed sequence number with its attempt counted |
| `ShardPoller.ShardPoller.Settle` | packages/ecs-batch/pollKinesis.js:134-139 | The position moves past the last record of the batch, and the iterator with it unless the shard closed |
| `ShardPoller.ShardPoller.Reseek` | packages/ecs-batch/pollDynamoDBStreams.js:159-176 | A new iterator at the position; on DynamoDB a trimmed position is reported and the trim horizon asked for, on Kinesis it fails the poll |
| `ShardPoller.ShardPoller.Acknowledge` | packages/ecs-batch/pollKinesis.js:277-290 | Keeps the failed records of the event in batch order and raises exactly when an entry names no record of it |
| `ShardPoller.TurnKeeps` | packages/ecs-batch/pollKinesis.js:190-271 | Every pass keeps the invariant: nothing skipped, retry behind the iterator and within the limit, budget of batches, position exact |
| `ShardPoller.BatchKeeps` | packages/ecs-batch/pollKinesis.js:228-270 | Every batch keeps the invariant, whatever its response |
| `ShardPoller.AdvanceKeeps` | packages/ecs-batch/pollKinesis.js:231-252 | Advancing settles every record of the batch, on a closed shard too: it succeeded, or the one report just made names it |
| `ShardPoller.RetryKeeps` | packages/ecs-batch/pollKinesis.js:253-270 | A retry goes back within the batch, never behind it, and everything before the new iterator is settled |
| `ShardPoller.RetryBudget` | packages/ecs-batch/pollKinesis.js:228-240 | A retry spends an attempt at the same record or starts at a later one: (records left, attempts left) goes down, and the attempt count needs no reset |
| `ShardPoller.ReseekKeeps` | packages/ecs-batch/pollDynamoDBStreams.js:154-176 | Asking anew at a position that does not float finds the same place; a floating one passes over records exactly when it resolves further on; passing over trimmed records happens only in a step that reports |
| `ShardPoller.PinnedRun` | packages/ecs-batch/pollKinesis.js:185-208 | On Kinesis, once the start is fixed or the first pass delivers a batch, no later expiry passes over a record, from LATEST too |
| `ShardPoller.PassesOverIff` | packages/ecs-batch/pollKinesis.js:185-208 | On Kinesis a run from a floating start passes over a record if and only if its script finds a new iterator further on than the start before the first batch, the loop still running |
| `ShardPoller.NothingPassedOverIff` | packages/ecs-batch/pollKinesis.js:185-208 | Whatever happens no record is passed over: if and only if the start is fixed on a poller that does not seek past trimmed records, or is the end of the shard |
| `ShardPoller.LatestCanSkip` | packages/ecs-batch/pollKinesis.js:203-208 | A run from LATEST whose iterator expires before the first batch does skip a record |
| `ShardPoller.SettledBatch` | packages/ecs-batch/pollKinesis.js:277-289 | Behind the record settler and the response builder, the records retried are exactly those not fulfilled, in order |
| `ShardPoller.LowestFailed` | packages/ecs-batch/pollKinesis.js:273-276 | The first of the failed records is the lowest failed one of the batch |
| `ShardPoller.RetryDelayBacksOff` | packages/ecs-batch/pollKinesis.js:84-88 | The delay starts at the configured one, doubles with each failure until it meets the cap, and stays there |
| `KafkaPoller.EveryRunIsSafe` | packages/ecs-batch/pollKafka.js:203-300 | In every run each resolved message, so each committed one, was acknowledged as succeeded or named in a discard report, and no partition exceeds its retry limit; unless a resolved message is brought again, its latest delivery is the one that succeeded or was reported |
| `KafkaPoller.EveryRunSettles` | packages/ecs-batch/pollKafka.js:203-300 | The same, from the batches: a resolved message was brought by a batch whose handler did not throw and whose response was valid and did not name it, or a report names it |
| `KafkaPoller.GoodBatchDoes` | packages/ecs-batch/pollKafka.js:203-213 | A batch without a failed message is resolved whole and committed, and its partition's retries are forgotten |
| `KafkaPoller.FailedBatchDoes` | packages/ecs-batch/pollKafka.js:214-244 | With retries left what is before the first failed message is resolved, nothing is reported, and the retry is counted, on from one at the same message or else anew; a shutdown or a rebalance counts nothing |
| `KafkaPoller.SpentBatchDoes` | packages/ecs-batch/pollKafka.js:216-235 | When the retries at the first failed message are spent, exactly the failed messages are reported, in order, the whole batch is resolved and the retries are forgotten |
| `KafkaPoller.TurnResolves` | packages/ecs-batch/pollKafka.js:246-300 | A batch resolves the longest prefix without a failed message; after a throw or an invalid response it resolves nothing, or the whole batch with a report naming all of it; a commit happens only when something was resolved and covers all resolved offsets |
| `KafkaPoller.TurnKeeps` | packages/ecs-batch/pollKafka.js:203-300 | Every batch keeps the run invariant |
| `KafkaPoller.LatestIff` | packages/ecs-batch/pollKafka.js:287-298 | Whatever becomes of a batch, the latest delivery of every resolved message stays settled: if and only if the batch brings none of them again |
| `KafkaPoller.LatestStays` | packages/ecs-batch/pollKafka.js:203-300 | One batch keeps it |
| `KafkaPoller.DiscardedAfterRetries` | packages/ecs-batch/pollKafka.js:203-244 | A partition whose deliveries keep failing first at one message, whatever retries were counted at another message before, with any other messages and answers and with other partitions in between, is redelivered M times without a report for it; the delivery after that is reported and resolved whole, and counting starts over |
| `KafkaPoller.BeforeIsLongest` | packages/ecs-batch/pollKafka.js:287-294 | What the offset loop resolves is the longest prefix free of failed messages |
| `KafkaPoller.Gate.Settle` | packages/ecs-batch/pollKafka.js:189-192 | Only the first settlement of the acknowledgement gate counts |
| `KafkaPoller.KafkaPoller.Acknowledge` | packages/ecs-batch/pollKafka.js:369-375 | Settles the gate with the named messages, with every one when the response is invalid, and then raises |
| `KafkaPoller.KafkaPoller.RetryOrDiscard` | packages/ecs-batch/pollKafka.js:203-244 | Success and discard forget the retry, an abort leaves it, a failure within the limit counts it |
| `KafkaPoller.KafkaPoller.Resolve` | packages/ecs-batch/pollKafka.js:287-298 | The offset loop resolves the prefix and commits only when it resolved something |
| `KafkaPoller.KafkaPoller.HandleBatch` | packages/ecs-batch/pollKafka.js:246-353 | The batch handed over, acknowledged or released, retried or discarded, resolved: equals the one-batch specification |
| `KafkaPoller.KafkaPoller.Run` | packages/ecs-batch/pollKafka.js:337-353 | Batch after batch equals the run specification |
| `MqPoller.EveryRunSettlesOnce` | packages/ecs-batch/pollRmq.js:165-267 | Over every interleaving of deliveries, failures, aborts, acknowledgements (repeated, late, unknown, invalid) and the loop: no delivery is acked or nacked twice, each taken one exactly once before another batch is taken, deliveries equal the batches taken followed by the pending ones in order, and every batch holds 1 to batchSize |
| `MqPoller.EveryRunSettlesRight` | packages/ecs-batch/pollRmq.js:228-266 | Over the same runs, from the events: a delivery is acked if and only if its batch was acknowledged by a valid response that does not name it, and nacked if and only if the response names it or is invalid or the loop found the batch unacknowledged; until then it is neither, and an unread body is nacked only |
| `MqPoller.PassDoes` | packages/ecs-batch/pollRmq.js:201-242 | The loop from one wait to the next: an abort ends it anywhere, a failure anywhere but in a batch window; a window takes the first pending deliveries up to the batch size; a batch that is back unacknowledged is nacked whole |
| `MqPoller.AcknowledgeDoes` | packages/ecs-batch/pollRmq.js:250-266 | One settlement for each delivery of the batch in order, an ack exactly for those the response acknowledges; nothing for an unknown or settled event |
| `MqPoller.ArrivalsDo` | packages/ecs-batch/pollAmq.js:177-195 | A delivery is queued at once, or when its body has been read; one whose body cannot be read is nacked |
| `MqPoller.StepKeeps` | packages/ecs-batch/pollRmq.js:165-267 | Every step keeps order, one batch in flight, one settlement each, and each delivery in one place |
| `MqPoller.ValidSettlesOnce` | packages/ecs-batch/pollRmq.js:228-266 | What the invariant says of acks and nacks: at most one each, exactly one while the loop may take a batch, none for a pending delivery |
| `MqPoller.BodyFailedKeeps` | packages/ecs-batch/pollAmq.js:184-195 | An unreadable ActiveMQ body is nacked once and never queued |
| `MqPoller.MqPoller.OnMessage` | packages/ecs-batch/pollRmq.js:167-181 | A RabbitMQ delivery is queued at once |
| `MqPoller.MqPoller.OnSubscribed` | packages/ecs-batch/pollAmq.js:177-184 | An ActiveMQ delivery starts reading its body |
| `MqPoller.MqPoller.OnBody` | packages/ecs-batch/pollAmq.js:184-195 | A read body queues its delivery, in the order bodies were read; an unreadable one nacks it |
| `MqPoller.MqPoller.Acknowledge` | packages/ecs-batch/pollRmq.js:250-266 | Acks or nacks each delivery of the batch, nacks all when the response is invalid and raises; an unknown or settled event changes nothing |
| `MqPoller.MqPoller.Settle` | packages/ecs-batch/pollRmq.js:256-262 | One ack or nack for each delivery, in order |
| `MqPoller.MqPoller.Run` | packages/ecs-batch/pollRmq.js:201-242 | The loop from one wait to the next: takes at most batchSize, and on resuming nacks a batch still in flight unless it aborts or fails |
| `SqsPoller.SqsPoller.Acknowledge` | packages/ecs-batch/pollSqs.js:209-251 | After whatever batches came before: an invalid response deletes nothing; otherwise exactly the records it does not name are sent for deletion, group after group of at most ten, all of them unless a request is rejected; a rejected request is the last one sent and its error is raised as it is; when all are answered, exactly the entries the service failed of this batch are raised |
| `SqsPoller.SentIffNotNamed` | packages/ecs-batch/pollSqs.js:209-225 | By place in the batch, for any queue: after a valid response the records sent for deletion are exactly those it does not name, each with its own receipt handle, in order |
| `SqsPoller.Chunk` | packages/ecs-batch/pollSqs.js:134-138 | The groups are the successive slices of the list |
| `SqsPoller.ChunksFlatten` | packages/ecs-batch/pollSqs.js:134-138 | The groups, each of 1 to size records, spell the list |
| `SqsPoller.FifoDeletesPrefix` | packages/ecs-batch/pollSqs.js:209-225 | For a FIFO batch settled in order the messages sent for deletion are the prefix before the first failure |
| `BatchFailures.ReadFailures` | packages/ecs-batch/pollKinesis.js:95-110 | The failed set is what the response names, and every record when one entry names none of the batch |
| `BatchFailures.FailsExactly` | packages/ecs-batch/pollKinesis.js:95-110 | A record is failed if and only if the response names it, or names one that is not of the batch |
| `BatchFailures.BuildBatchItemFailures` | packages/event-batch-response/index.js:13-40 | The response names, in order and by the rendering the source uses, the records without a fulfilled entry |
| `BatchFailures.NotDoneIds` | packages/event-batch-response/index.js:13-20 | An identifier is named exactly when some record with it is not fulfilled |
| `BatchFailures.EndToEnd` | packages/event-batch-response/index.js:13-20 | Where records are named as they are, for every batch: the response built is valid, no failed record is taken for done, and the failed set acted on is exactly the unfulfilled records if and only if no fulfilled record shares an identifier with an unfulfilled one |
| `BatchFailures.EndToEndAs` | packages/event-batch-response/index.js:22-40 | Where identifiers are rendered, as Kafka offsets by Number: the poller acts on exactly the unfulfilled records, by a valid response, if and only if their identifiers are rendered exactly |
| `BatchFailures.NoFailedTakenForDone` | packages/ecs-batch/pollKafka.js:107-133 | No failed record is taken for done if and only if the response is invalid or the failed records are rendered exactly |
| `KafkaOffsets.LetsThroughIff` | packages/ecs-batch/pollKafka.js:246-300 | Behind the builder, for every batch in ascending order and every rendering that keeps order and, done twice, is done once: a message not fulfilled is resolved without a report naming it if and only if the response passes as valid and, where the batch is discarded, some message not fulfilled is rendered inexactly, and otherwise the first one is rendered upwards |
| `KafkaOffsets.OffsetsLetThroughIff` | packages/event-batch-response/index.js:27-40 | For offsets below 2^54 as Number renders them, in their digits: where the batch is discarded, some odd message from 2^53 on is not fulfilled, and otherwise the first one not fulfilled is from 2^53 on with remainder 3 modulo 4 |
| `KafkaOffsets.NothingSlipsBelow` | packages/event-batch-response/index.js:27-40 | Below 2^53 no message not fulfilled is resolved without a report, and exactly those are acted on |
| `KafkaOffsets.FirstFailed` | packages/ecs-batch/pollKafka.js:287-294 | A valid response stops the offset loop at the rendering of the first message not fulfilled, which is a message of the batch |
| `KafkaOffsets.RenderedKeepsOrder` | packages/event-batch-response/index.js:35 | Number keeps the order of offsets, and rendering twice is rendering once |
| `KafkaOffsets.RoundedUpIsCommitted` | packages/ecs-batch/pollKafka.js:287-298 | Offsets 2^53+3 and 2^53+4 with the first rejected: the rejected message is resolved and committed, and nothing is reported |
| `KafkaOffsets.RoundedDownHolds` | packages/ecs-batch/pollKafka.js:287-298 | Offsets 2^53 and 2^53+1 with the second rejected: nothing is resolved, the fulfilled message included |
| `BatchFailures.FilterIsResponse` | packages/ecs-batch/pollKinesis.js:283-288 | With distinct identifiers the failed records kept by a poller are the response itself |
| `BatchFailures.FifoPrefix` | packages/event-batch-handler/index.js:109-132 | With distinct identifiers what a FIFO batch does not fail is the prefix before its first rejection |
| `BatchHandler.SettleConcurrent` | packages/event-batch-handler/index.js:86-107 | For every interleaving and limit the settled list equals the outcomes of the records, in record order |
| `BatchHandler.WorkerPool.RunAll` | packages/event-batch-handler/index.js:91-106 | Whichever worker moves next, each record is claimed exactly once, in order, and its own entry gets its own outcome |
| `BatchHandler.WorkerPool.Claim` | packages/event-batch-handler/index.js:91-96 | A ready worker takes the next unclaimed record or stops; steps left go down |
| `BatchHandler.WorkerPool.Complete` | packages/event-batch-handler/index.js:96-103 | A finished record writes its own entry and no other |
| `BatchHandler.WorkerPool.AtMostLimit` | packages/event-batch-handler/index.js:84-106 | In every state a pool reaches at most its limit of records run at once, and those claimed and not settled are the ones that do |
| `BatchHandler.SettleSequential` | packages/event-batch-handler/index.js:111-132 | Records run one at a time up to the first rejection, which is also the last run; the rest settle as unprocessed |
| `BatchHandler.SequentialAt` | packages/event-batch-handler/index.js:111-132 | A record keeps its own outcome as long as none before it was rejected, and is unprocessed otherwise |
| `BatchHandler.DurableScan` | packages/event-batch-handler/index.js:46-56 | Throws the reason of the first rejected record that was parsed, looking no further than an unparsed one in FIFO; throws nothing when there is none |
| `Engine.RunPromises` | packages/core/index.js:165-329 | For all stacks and requests: the calls are befores, then perhaps the handler with its hooks, afters, onErrors, each kind in order from the first and none twice; the handler runs exactly when every before went through without an early response and the hook before it did not throw, afters exactly when the handler answered and the hook after it did not throw, onErrors exactly when something threw outside durable mode; an errored run returns a defined response or throws |
| `Engine.EveryRequestEnds` | packages/core/index.js:185-329 | Every request ends in one of the ways below |
| `Engine.EarlyReturned` | packages/core/index.js:191-201 | The early response of the first before that leaves one, what it returned or else what it set, is what is returned |
| `Engine.SkippedReturned` | packages/core/index.js:203-204 | With an early response set before and no befores, the handler is passed over |
| `Engine.AnswerReturned` | packages/core/index.js:216-281 | Otherwise the handler's answer, as the last after leaves it, is returned, the answer itself without afters, and the early response of an after that leaves one |
| `Engine.ThrownOutcome` | packages/core/index.js:282-323 | After a throw the response an onError leaves is returned, and without one the error is thrown, with a different one an onError throws; in durable mode it is rethrown at once |
| `Engine.ChainStopsAtFirst` | packages/core/index.js:186-201 | A list of middlewares runs in order up to and with the first that throws or leaves an early response |
| `Engine.TryCalls` | packages/core/index.js:185-281 | The calls of the guarded part: befores, then perhaps the handler with its hooks and afters, and when each of them runs |
| `Engine.Invocation.RunLoop` | packages/core/index.js:186-201 | Each of the three loops, mutating the request in place, equals the recursive specification |
| `Engine.Invocation.RunHandler` | packages/core/index.js:203-281 | The handler, its hooks and the afters equal their specification |
| `Engine.Invocation.RunTry` | packages/core/index.js:185-281 | The guarded part equals its specification |
| `Engine.Invocation.RunCatch` | packages/core/index.js:282-323 | The error path equals its specification: response and early response cleared, durable rethrown, a different error from onError combined with the first, an unhandled one rethrown |
| `Engine.Invocation.RunRequest` | packages/core/index.js:165-329 | The whole request equals the recursive specification, calls included |
| `Engine.Invocation.Invoke` | packages/core/executionModeStandard.js:12-49 | The request runs as requestStart left it, changed or not; requestEnd runs once after it whatever came of it, and neither of two errors is lost; a throw from requestStart runs nothing |
| `MiddlewareStack.Onion` | packages/core/index.js:121-160 | Around any layer, befores run from the outermost in, afters and onErrors from the innermost out |
| `MiddlewareStack.CollectAt` | packages/core/index.js:121-146 | The hooks collected are those of exactly the layers that have one of the kind, each once, in the order of the layers |
| `MiddlewareStack.Middy.Use` | packages/core/index.js:121-146 | Attaches all layers in order or, when one has no hook, none |
| `MiddlewareStack.Middy.Attach` | packages/core/index.js:142-144 | Befores join at the end, the others reversed at the front |
| `MiddlewareStack.Middy.Before` | packages/core/index.js:149-152 | Adds a layer with one before hook |
| `MiddlewareStack.Middy.After` | packages/core/index.js:153-156 | Adds a layer with one after hook |
| `MiddlewareStack.Middy.OnError` | packages/core/index.js:157-160 | Adds a layer with one onError hook |
| `Invocations.EveryRun` | packages/core/index.js:10-17 | Over every interleaving of starts, ones whose requestStart throws included, writes and ends of any number of invocations, nested or side by side: each inherits from the same ones for good, its lookups change only by writes to itself or to one it is nested in, and while its stack runs its writes go to its own namespace |
| `Invocations.LookupStays` | packages/core/index.js:96-97 | A write changes lookups of its key only, in its target and what is nested in that |
| `Invocations.WriteReadBack` | packages/core/index.js:182-183 | A running stack writes to its own namespace, whatever was invoked meanwhile, and reads the write back |
| `Invocations.StartReads` | packages/core/index.js:93-100 | A new invocation reads what the stack running on its context reads, and nothing on a context not in use, one whose stack settled included; whether or not its own stack comes to run |
| `Invocations.EventsDo` | packages/core/index.js:93-183 | What each event does to the invocations: a start adds one, on a context of its own inside a running stack and otherwise on the one it was given, a write changes one property of one, the end of a stack stops it running |
| `Invocations.ChainStays` | packages/core/index.js:96-97 | No step changes what an invocation is nested in |
| `Invocations.SiblingsUnseen` | packages/core/index.js:10-17 | Invocations of which neither is nested in the other never see a write of each other |
| `Invocations.SiblingsApart` | packages/core/index.js:96-97 | Two invocations of one stack are such |
| `Invocations.Host.GetIsLookup` | packages/core/index.js:96-97 | A lookup through the prototype links is the lookup of the plain reading |
| `Invocations.Host.StartOn` | packages/core/index.js:93-100 | On the objects: the context, namespace and mark of a start, or of one whose requestStart throws, refine the plain step |
| `Invocations.Host.WriteTo` | packages/core/index.js:93-100 | A write through a context refines the plain step |
| `Invocations.Host.SettleOf` | packages/core/index.js:324-326 | The cleared mark refines the plain step |
| `Invocations.Host.NewContext` | packages/core/index.js:93-100 | A context of the host, not in use |
| `Contexts.Enter` | packages/core/index.js:93-183 | What an invocation runs with: a marked context with a namespace that is new and empty, inheriting from the outer one inside a running stack |
| `Contexts.Invoke` | packages/core/index.js:93-110 | An invocation with everything nested in it, to any depth, leaves every lookup from a namespace that was there before unchanged, does not touch a running context, and ends with a context that is not running |
| `Contexts.MiddyRequest` | packages/core/index.js:93-100 | In a running stack a derived context and a namespace that reads what the outer one reads; anywhere else, a settled stack included, a new namespace that reads nothing |
| `Contexts.Act` | packages/core/index.js:182-281 | What a stack does changes no namespace but its own |
| `Contexts.Begin` | packages/core/index.js:182-183 | The mark makes the context running |
| `Contexts.End` | packages/core/index.js:324-326 | Clearing the mark ends that, so a reused context starts over |
| `Contexts.Namespace.Set` | packages/core/index.js:94-99 | A write is read back and no namespace that does not inherit from this one sees it |
| `Contexts.AncestorsApart` | packages/core/index.js:96-97 | An ancestor never inherits from its descendant |
| `Contexts.SiblingsApart` | packages/core/index.js:96-97 | Neither of two siblings inherits from the other |
| `StreamWriter.WriteString` | packages/core/executionModeStreamifyResponse.js:106-119 | After whatever was written before, the writes are the chunks of the body in order; the writer waits once for each of them refused but the last, then ends the stream |
| `StreamWriter.ChunksSpellBody` | packages/core/executionModeStreamifyResponse.js:106-117 | The chunks are full but for the last, none is empty unless the body is, and they spell the body |
| `StreamWriter.BytesSentExactly` | packages/core/executionModeStreamifyResponse.js:106-117 | The bytes sent equal the UTF-8 of the body if and only if no chunk boundary falls inside a surrogate pair; each that does adds two bytes |
| `StreamWriter.StraddlingPair` | packages/core/executionModeStreamifyResponse.js:106-117 | A body whose first boundary splits a pair is sent as other bytes |
| `Utf16.Utf8Cut` | packages/core/executionModeStreamifyResponse.js:112-112 | Encoding two parts apart gives the bytes of the whole unless the cut splits a pair, and then two more |
| `Utf16.Utf8ReadsBack` | packages/core/executionModeStreamifyResponse.js:106-119 | The round trip: a reader of UTF-8 (section 3 of RFC 3629) gets the code points of every text back, half a surrogate pair as U+FFFD |
| `LeasedClients.EveryRun` | packages/rds/index.js:113-248 | Over every interleaving of connects, refreshes, reconnects, leases and releases: with shared clients end() is never called on a client some request holds; while each request leases once, every count is the number of holders and a retired client nobody holds has been ended |
| `LeasedClients.CachedStays` | packages/rds/index.js:155-200 | Over every run the client of the cached entry stays live and is not ended, whatever other connects and requests do, as long as no connect that waits is told the other one failed |
| `LeasedClients.AwaitedDoes` | packages/rds/index.js:173-183 | A connect that waited: when the other succeeded its own client is retired, ended at once if nobody holds it, and the live one stays; when the other failed its client takes over and the one before is retired |
| `LeasedClients.ConnectedDoes` | packages/rds/index.js:166-177 | A connected client takes over when its entry is the cached one or there is none, and otherwise waits, with nothing retired or ended |
| `LeasedClients.BrokenDoes` | packages/rds/index.js:219-231 | A broken client is retired with its entry, unless another connect has replaced the entry |
| `LeasedClients.LeasedDoes` | packages/rds/index.js:131-136 | A lease puts the client in the hands of the request and counts it, and does nothing else |
| `LeasedClients.ReleasedDoes` | packages/rds/index.js:137-147 | A release ends the client if and only if it was the last lease and the client was retired |
| `LeasedClients.OthersDo` | packages/rds/index.js:184-248 | A failed connect drops only its own entry, and only a client of a single invocation is ended by its request |
| `LeasedClients.StepKeeps` | packages/rds/index.js:113-248 | Every step keeps: held clients are leased with a covering count, none ended while held, retired ones ended or still leased, connected ones live, waiting, retired or lost |
| `LeasedClients.LeaseKeeps` | packages/rds/index.js:131-136 | A lease keeps the counts exact if and only if the request held nothing |
| `LeasedClients.ExactIffLeasesOnce` | packages/rds/index.js:131-147 | After every run the counts are exact if and only if no request leased again before it released |
| `LeasedClients.SurplusIsDisplacements` | packages/rds/index.js:131-147 | Over every run the count of a client comes to exceed its holders by one for each second lease that took a request from it, and by nothing else |
| `LeasedClients.SecondLeaseLeaks` | packages/rds/index.js:126-147 | From then on, with shared clients, that client stays leased and is never ended, whatever follows |
| `LeasedClients.LeakedClient` | packages/rds/index.js:131-147 | A run that leaves a retired client nobody holds and nobody ended |
| `LeasedClients.ReleaseKeeps` | packages/rds/index.js:137-147 | A release keeps the counts exact |
| `LeasedClients.RetiredUnheldIsEnded` | packages/rds/index.js:113-117 | With exact counts a retired client with no holder has been ended, so its last release ended it |
| `LeasedClients.RetireKeeps` | packages/rds/index.js:126-130 | Retiring ends an unheld client at once and marks a held one |
| `LeasedClients.OnBrokenKeeps` | packages/dsql/index.js:223-236 | Dropping a broken client loses track of another one exactly when that other one was live |
| `LeasedClients.OnAwaitedKeeps` | packages/dsql/index.js:181-187 | A connect that lost the cache to another is retired or adopted, never forgotten |
| `LeasedClients.LeasedClients.CloseClient` | packages/rds/index.js:121-125 | One end() on the client, with its holders at that time |
| `LeasedClients.LeasedClients.RetireClient` | packages/rds/index.js:126-130 | Equals the retire step |
| `LeasedClients.LeasedClients.LeaseClient` | packages/rds/index.js:131-136 | Equals the lease step |
| `LeasedClients.LeasedClients.ReleaseClient` | packages/rds/index.js:137-147 | Equals the release step |
| `LeasedClients.LeasedClients.Reclaim` | packages/rds/index.js:148-156 | Releases every lease, ends every client of its own when clients are per invocation, un-ends none, leaves no lease when counts were exact |
| `LeasedClients.LeasedClients.AdoptClient` | packages/rds/index.js:157-163 | Retires the live client and makes this one live |
| `LeasedClients.LeasedClients.Fetched` | packages/rds/index.js:166-177 | A connect is adopted when its entry is current or gone, and otherwise waits for the one that replaced it |
| `LeasedClients.LeasedClients.Replaced` | packages/rds/index.js:177-183 | The waiting client is retired when the other connect succeeded, adopted when it failed |
| `LeasedClients.LeasedClients.FetchFailed` | packages/rds/index.js:185-194 | A failed connect clears only its own cache entry |
| `LeasedClients.LeasedClients.DropBroken` | packages/rds/index.js:219-231 | Equals the broken-client step: nothing when another invocation already replaced the entry |
| `LeasedClients.LeasedClients.Finish` | packages/rds/index.js:237-248 | The after and onError hooks end the request's own client when clients are per invocation, then release |
| `JwksResolver.EveryRun` | packages/http-jwt/index.js:260-330 | Over every history of calls, fetch outcomes and elapsed time: at most one fetch outstanding, k further fetches take k cooldowns, a miss in the cooldown has an answer, a call fetches at most twice, and a key returned has the kid asked for and may verify |
| `JwksResolver.NoKeyAskedTwice` | packages/http-jwt/index.js:315-330 | Over every history a call that returned no key missed it in one document, made another fetchJwks call at that moment, and got by that one a document without the key |
| `JwksResolver.GetJwkDoes` | packages/http-jwt/index.js:315-326 | A cached document younger than cacheMaxAge that has the key returns it without a fetch; one without it, or an older one, makes a fetchJwks call, which joins the fetch in flight, answers from memory in the cooldown, or starts a fetch now |
| `JwksResolver.ResumeDoes` | packages/http-jwt/index.js:319-330 | A failed fetch is thrown, a document with the key returns it, one without it makes a second fetchJwks call, and after that there is no key |
| `JwksResolver.OthersDo` | packages/http-jwt/index.js:284-314 | A settled document is kept with its time, a failure beside it; warming makes a fetchJwks call and waits for nothing |
| `JwksResolver.NeverFound` | packages/http-jwt/index.js:247-256 | A key is never found exactly when its kid differs, it is published for another use than sig, or its operations leave out verify (sections 4.2 and 4.3 of RFC 7517) |
| `JwksResolver.StepKeeps` | packages/http-jwt/index.js:260-330 | Every step keeps one fetch, its spacing, the memory of the last document and failure, and every pending call in order |
| `JwksResolver.ValidAnswers` | packages/http-jwt/index.js:276-280 | A miss inside the cooldown always has a cached document or a recorded error |
| `JwksResolver.Spaced` | packages/http-jwt/index.js:274-282 | Fetch starts are at least a cooldown apart, so k of them take k cooldowns |
| `JwksResolver.ExactlyOneRemembered` | packages/http-jwt/index.js:276-280 | A document and a failure are both set if and only if one fetch ended in each; a miss in the cooldown finds exactly one of them if and only if all settled fetches ended alike |
| `JwksResolver.ExactlyOneAfterEveryRun` | packages/http-jwt/index.js:276-280 | The same after every history |
| `JwksResolver.BothRemembered` | packages/http-jwt/index.js:276-280 | A history after which both are set, and the document is served |
| `JwksResolver.FindJwk` | packages/http-jwt/index.js:250-256 | A key of the document with the kid that may verify (sections 4.2 and 4.3 of RFC 7517), or none when no key does |
| `JwksResolver.FindsFirst` | packages/http-jwt/index.js:250-256 | The key found is the first that does |
| `JwksResolver.JwksResolver.Fetch` | packages/http-jwt/index.js:272-309 | Joins the fetch in flight, answers from memory inside the cooldown, or starts one |
| `JwksResolver.JwksResolver.OnFetched` | packages/http-jwt/index.js:284-306 | A document replaces the cache, a failure is kept, and the fetch is over |
| `JwksResolver.JwksResolver.GetJwk` | packages/http-jwt/index.js:315-320 | Up to the first wait: equals the step |
| `JwksResolver.JwksResolver.Continue` | packages/http-jwt/index.js:319-328 | From a wait to the next: one refetch when the key is missing, and no more |
| `AppConfig.EveryRun` | packages/appconfig/index.js:105-188 | Over every run of concurrent invocations, replies and failures no token is passed to GetLatestConfiguration twice nor after its validity, and a fetch that settles with a value has the last configuration received for its key that was not empty |
| `AppConfig.EveryFetchSettles` | packages/appconfig/index.js:105-188 | Over every run a fetch fails if and only if its session did not start or its token was rejected; an empty reply settles it with the last configuration received for the key, a full one with its own |
| `AppConfig.WantedDoes` | packages/appconfig/index.js:147-188 | A fetch in flight is joined, a cached token that is still valid is sent, and otherwise a session is started |
| `AppConfig.SessionDoes` | packages/appconfig/index.js:153-164 | A session that started sends its first token at once; otherwise the fetch fails |
| `AppConfig.LatestDoes` | packages/appconfig/index.js:105-142 | A reply caches the next token from now for 24 hours less 5 minutes and settles the fetch; a rejection leaves no token and fails it |
| `AppConfig.FinallyDoes` | packages/appconfig/index.js:176-179 | A settled fetch leaves the table, and time passing changes nothing else |
| `AppConfig.StepKeeps` | packages/appconfig/index.js:105-188 | Every step keeps that, with each cached token unsent or belonging to the fetch in flight |
| `AppConfig.GetKeeps` | packages/appconfig/index.js:113-117 | Sending a token keeps it when the token is unsent, valid and cached for no other key |
| `AppConfig.LatestKeeps` | packages/appconfig/index.js:120-142 | A reply replaces the used token, a failure drops it |
| `AppConfig.AppConfig.FetchRequest` | packages/appconfig/index.js:147-188 | Joins the fetch in flight, starts a session without a valid token, or sends the cached token |
| `AppConfig.AppConfig.OnSession` | packages/appconfig/index.js:153-164 | A started session sends its first token; a failed one settles the fetch |
| `AppConfig.AppConfig.OnLatest` | packages/appconfig/index.js:120-142 | A configuration is cached, an empty one yields the cached value, a failure clears the token |
| `AppConfig.AppConfig.OnFinally` | packages/appconfig/index.js:176-179 | A settled fetch leaves the table |
| `Primary.EveryRun` | packages/ecs-batch/index.js:243-305 | While not stopping, live workers plus pending timers equal workers and the delay is the backoff of the current streak of early exits; once stopping nothing is forked, and the process has exited exactly when no worker is listed, with the highest code that counts |
| `Primary.EveryRunExits` | packages/ecs-batch/index.js:243-305 | Over every run the primary stops if and only if it was told to or a worker's source closed; it exits with the highest of the codes its workers left since, 1 for one killed by a signal, or 0 |
| `Primary.ExitedDoes` | packages/ecs-batch/index.js:277-292 | The exit of a worker counts its code while draining, starts the drain with its code when its source closed, and otherwise schedules one replacement |
| `Primary.OthersDo` | packages/ecs-batch/index.js:289-302 | A disconnect unlists its worker, a timer forks one unless stopping, SIGTERM stops and tells every listed worker |
| `Primary.StepKeeps` | packages/ecs-batch/index.js:243-305 | Every event keeps staffing, backoff and drain |
| `Primary.NextDelayKeeps` | packages/ecs-batch/index.js:267-275 | The n-th delay of a streak is min(1000 * 2^n, 30000) |
| `Primary.StoppedForksNothing` | packages/ecs-batch/index.js:289-302 | Once stopping, no event forks or schedules |
| `Primary.MaxIsMax` | packages/ecs-batch/index.js:258-262 | The drain code is one of the codes counted and none is higher |
| `Primary.ClusterPrimary.OnExit` | packages/ecs-batch/index.js:277-292 | A drain counts the code (1 for a signal), a closed source starts the drain, any other exit schedules a fork |
| `Primary.ClusterPrimary.OnDisconnect` | packages/ecs-batch/index.js:293-297 | The drain check runs on the last event of a worker, whichever it is |
| `Primary.ClusterPrimary.OnTimer` | packages/ecs-batch/index.js:289-291 | A timer forks unless stopping |
| `Primary.ClusterPrimary.OnSigterm` | packages/ecs-batch/index.js:298-302 | Signals every listed worker, then checks the drain |
| `Primary.ClusterPrimary.NextReforkDelay` | packages/ecs-batch/index.js:267-275 | Starts over after a quiet minute, otherwise doubles up to the cap |
| `Primary.ClusterPrimary.CheckDrained` | packages/ecs-batch/index.js:264-266 | Exits only with no listed worker |
| `Primary.ClusterPrimary.constructor` | packages/ecs-batch/index.js:255-276 | Forks the configured number of workers |
| `Router.Router.Dispatch` | packages/http-router/index.js:137-182 | For every list that built and every request the choice of the plain specification: the method's static route, ANY static, the method's first dynamic route that matches and passes the filter, ANY's; a pattern without a named group throws instead of running its handler |
| `Router.ChooseFirst` | packages/http-router/index.js:66-70 | No route is chosen if and only if none of the method or of ANY serves the path; otherwise it is the first of those that rank lowest: static before dynamic, the method's own before those of ANY, wherever they are in the list |
| `Router.OptionalSlash` | packages/http-router/index.js:144-148 | A route serves a request without a trailing slash exactly when it serves the same one with it, filter and all, if and only if the slash does not matter to it: it does after a segment that takes only the empty text, before a final proxy |
| `Router.StaticServes` | packages/http-router/index.js:90-99 | A route is static if and only if its path has no brace, and then it serves its path with or without a slash at the end, and nothing else |
| `Router.DynamicRuns` | packages/http-router/index.js:157-179 | A dynamic route runs its handler if and only if its pattern has a named group |
| `Router.TrailingSlash` | packages/http-router/index.js:85-88 | A route path with one more slash at its end has the same key and serves the same requests |
| `Router.Router.Build` | packages/http-router/index.js:71-114 | A list of routes builds exactly when every method is known, every pattern compiles and no two routes of a method share a key; then the tables hold exactly those routes |
| `Router.BuildableIff` | packages/http-router/index.js:71-114 | A list builds if and only if every method is known, every path is plain or compiles, and no two routes of one method share a key |
| `Router.Router.Add` | packages/http-router/index.js:75-108 | One route is taken in exactly when the list with it still builds |
| `Router.Router.AddStatic` | packages/http-router/index.js:90-99 | A static route is refused exactly when its path is taken |
| `Router.Router.AddDynamic` | packages/http-router/index.js:101-107 | A dynamic route is refused exactly when its signature is taken |
| `Router.Router.AttachStatic` | packages/http-router/index.js:199-207 | Both keys are set in the one table, or nothing on a duplicate |
| `Router.Router.AttachDynamic` | packages/http-router/index.js:213-220 | The route joins the end of the one table, or nothing on a duplicate |
| `Router.Router.WalkDynamic` | packages/http-router/index.js:149-179 | The walk over the compiled routes picks the first route of the list that serves the request |
| `Router.InterleavingNeverMatters` | packages/http-router/index.js:66-70 | Two lists with the same routes of a method and the same ANY routes serve its requests alike, however they are interleaved |
| `Router.ServesIsRegex` | packages/http-router/index.js:222-234 | But for the filter a dynamic route serves what its regular expression accepts, character by character, and nothing when it does not compile |
| `Router.FilterFreeIff` | packages/http-router/index.js:149-156 | The slash-count filter changes nothing of what a route serves, if and only if the route is static, does not compile, or its pattern does not end in a segment that takes the empty text |
| `Router.FilterChangesNoChoice` | packages/http-router/index.js:149-179 | With such routes only, every choice is the one there would be without the filter |
| `Router.FilterFreeExactly` | packages/http-router/index.js:149-179 | A route by itself is chosen for every request as it would be without the filter, if and only if it is such |
| `Router.StrippedApart` | packages/http-router/index.js:85-88 | A stripped path is never another one with a slash added, so the two keys of a static route clash with no other |
| `RoutePattern.RegexIsPiecewise` | packages/http-router/index.js:222-234 | The regular expression, character by character, accepts exactly the requests the segments accept piece by piece |
| `RoutePattern.FilterNeverMatters` | packages/http-router/index.js:144-156 | The slash-count filter turns away no request the pattern accepts, if and only if the pattern, where it accepts any, does not end in a segment that takes the empty text |
| `RoutePattern.CompiledPath` | packages/http-router/index.js:238-242 | A compiled path is filed under its slash count unless it has a final proxy, and is the exception above exactly when it can be matched and ends with a slash or with a negative look behind |
| `RoutePattern.SameSignatureSameRequests` | packages/http-router/index.js:209-212 | Patterns with one signature and parameters of the same kinds accept the same requests |
| `RoutePattern.SameRequestsIff` | packages/http-router/index.js:235-237 | Patterns with one signature accept exactly the same requests, if and only if their parameters are of the same kinds or neither accepts any |
| `RoutePattern.SlashOptionalIff` | packages/http-router/index.js:144-156 | For every pattern the trailing slash of a request is optional, if and only if it has no final proxy after a segment that takes only the empty text with another kind before that |
| `RoutePattern.TurnedAway` | packages/http-router/index.js:149-156 | Compiled paths whose regular expression accepts /1/ while the filter turns it away: `/{x}/`, left of `/{x}//`, and `/{x}/{!y}` |
| `RoutePattern.Compile` | packages/http-router/index.js:222-243 | A compiled path has one segment for each of its pieces, none holding a slash |
| `RoutePattern.CompileExactly` | packages/http-router/index.js:222-243 | A path compiles to the pattern that writes it out, whatever its braces hold, if and only if the names of that pattern can be group names |
| `RoutePattern.CompileRefusals` | packages/http-router/index.js:227-234 | It is refused for leftover braces if and only if no pattern writes it, and for its group names if and only if one does and none of them compiles |
| `RoutePattern.CompiledNames` | packages/http-router/index.js:222-234 | A path that compiles names no two parameters alike, none like its final proxy, and each by a group name |
| `RoutePattern.SignatureIff` | packages/http-router/index.js:235-237 | Two patterns have one signature if and only if they differ at most in the names of their parameters |
| `RoutePattern.NamedTakes` | packages/http-router/index.js:227 | A named parameter takes any text without a slash, but not the empty one, between its prefix and its suffix |
| `RoutePattern.GroupText` | packages/http-router/index.js:227 | What stands between `(?<` and `[^/]+`: a name up to the first `>`, and the text before the one meant to end it; with `=` or `!` first it is a look behind |
| `RoutePattern.GroupNameChars` | packages/http-router/index.js:234 | A group name is of letters, underscores and, but for the first, digits |
| `ForwardedFor.HopFromEnd` | packages/ecs-http/index.js:155-162 | The backward scan picks the trimmed n-th piece from the end of the split header, blank and missing counted alike, for every header and n; only a leading comma makes it answer a blank for a missing one |
| `ForwardedFor.WrittenHop` | packages/ecs-http/index.js:155-173 | For every list of hops written with commas between, the n-th from the end is picked, trimmed, or none when there are fewer |
| `ForwardedFor.TrimExactly` | packages/ecs-http/index.js:161 | Trimming takes all white space off both ends and nothing else |
| `ForwardedFor.ClientHop` | packages/ecs-http/index.js:164-173 | The hop that replaces the socket address, or none when there is no trusted proxy, no header, or a blank or missing hop |
| `ForwardedFor.StepBack` | packages/ecs-http/index.js:157-160 | One step of the scan passes one piece, or stays at a leading comma where the negative start is clamped |
| `AtomicAmount.ScaleExact` | packages/http-x402/index.js:537-559 | A text is accepted exactly when it is a decimal with at most decimals fraction digits; the result is the canonical numeral of price * 10^decimals |
| `AtomicAmount.PlainExact` | packages/http-x402/index.js:525-560 | Text and numbers without an exponent alike: a decimal comes to its exact amount, one with too many digits is refused for that, and anything else for its price |
| `AtomicAmount.OverrideExact` | packages/http-x402/index.js:525-533 | An amount given outright is taken as it is if and only if it is one or more digits, whatever the price |
| `AtomicAmount.NumberExact` | packages/http-x402/index.js:525-560 | A number rendered with an exponent scales exactly too, and fails by its RangeError exactly when the point falls inside the digits |
| `AtomicAmount.RenderedExact` | packages/http-x402/index.js:508-560 | Every number rendered as I.Fe+X, with either sign or none, scales to IF * 10^(decimals + X - F digits), is refused for too many digits, or fails by its RangeError |
| `AtomicAmount.NegativeRefused` | packages/http-x402/index.js:525-560 | A negative number, with an exponent or not, is refused for its price, unless the layout of its exponent fails first |
| `AtomicAmount.LayoutExact` | packages/http-x402/index.js:508-523 | The layout exists exactly when the point falls outside the digits, and denotes the same number |
| `AtomicAmount.ParseDecimal` | packages/http-x402/index.js:537-546 | What is matched is a decimal and spells the text |
| `AtomicAmount.ParseComplete` | packages/http-x402/index.js:537-546 | Every decimal is matched, in one way |
| `AtomicAmount.CanonicalUnique` | packages/http-x402/index.js:555-559 | A number has one canonical numeral |
| `CfnResponse.Serialize` | packages/cloudformation-response/index.js:91-127 | The body has at most 4096 bytes and is that of the response as left; a reason is untouched when it fits, and otherwise the longest run of whole characters that fits followed by the note; it throws exactly when the body with the note alone is still too large, or there is no text to trim |
| `CfnResponse.NoLongerRun` | packages/cloudformation-response/index.js:103-108 | Once the next character does not fit, no longer run does |
| `CfnResponse.CharFits` | packages/cloudformation-response/index.js:89-108 | A kept character costs exactly the bytes the budget is charged |
| `CfnResponse.EscapedCut` | packages/cloudformation-response/index.js:87-89 | Escaping splits where characters do |
| `CfnResponse.EscapedReadsBack` | packages/cloudformation-response/index.js:87-89 | The round trip: a reader of JSON strings (section 7 of RFC 8259) gets every text back from what is written for it |
| `CfnResponse.EscapeLength` | packages/cloudformation-response/index.js:87-89 | Two units are written for a quote, a backslash and five controls, six for the other controls and half a surrogate pair, and anything else is itself |
| `CfnResponse.BodyAround` | packages/cloudformation-response/index.js:91-92 | The body is what comes before the reason, the quoted reason if there is one, and what comes after it |

## Left out

- AWS SDK, kafkajs, amqplib, stompit, pg and fetch calls: their answers are arguments of events, any answer at any time; a resend after an invalid signature is part of one send.
- `@middy/util` internals (`processCache`, `getCache`, `clearCache`): the cache slot is set and cleared by the environment at will.
- ShardPoller.EveryRunIsSafe: on DynamoDB it does not claim that every trimmed record is named, because the code reports only the failed records of the retry; and a trim horizon may move without an error, so it counts as a floating start.
- ShardPoller.ShardPoller.Poll: the first iterator request, the polling delay and the backoff timer are not part of the script; an abort during the backoff ends the loop as an aborted request does.
- ShardPoller.RetryDelayBacksOff: does not model the overflow of `2 ** (attempt - 1)` to infinity, where a delay of 0 becomes NaN.
- KafkaOffsets.OffsetsLetThroughIff: the digits `String` prints for an offset from 2^54 on are not modelled; `KafkaOffsets.LetsThroughIff` holds for them too, with the rendering as a parameter.
- KafkaPoller.EveryRunIsSafe: safety only, for one batch at a time as `partitionsConsumedConcurrently: 1` gives it; the hand-off, the crash event and heartbeats are left out.
- MqPoller.EveryRunSettlesOnce: channel and connection errors while acking, and what the broker redelivers after the connection closes, are outside the model.
- SqsPoller.SqsPoller.Acknowledge: the receive loop is not modelled, because it keeps no state from one batch to the next, nor the visibility timeout, which is one sum handed to the service.
- LeasedClients.EveryRun: does not claim that a newly leased client is open (it can be retired between the await and the lease) or that each client is ended only once.
- LeasedClients.OnBrokenKeeps: the cache is free, so it does not say which real cache makes `live` another client.
- JwksResolver.EveryRun: no bound on staleness, because inside the cooldown an old document is served; reading and size-limiting the body is part of the fetch outcome; the clock never goes back.
- AppConfig.EveryRun: the service is taken never to issue a token twice; decoding, JSON parsing and cache eviction of the callers are left out.
- Primary.EveryRun: the effect of a second SIGTERM, which ends the process, and ECS metadata are left out.
- Engine.RunPromises: the hooks around each middleware are folded into its step and the early timeout into the handler; other execution modes are left out.
- Contexts.Invoke: the nested invocations of one call run one after another; interleaved ones are in `Invocations`.
- Invocations.EveryRun: what a `requestStart` hook itself does with the context before the mark is set, what a stack reads or writes through a context other than its own, and contexts a program derives by itself, are not modelled.
- Router.Router.Dispatch: path parameters and their decoding, event formats, `*` in routes, non-ASCII group names and route lists with two trailing slashes on a path (one such path is in `RoutePattern.TurnedAway`) are left out.
- ForwardedFor.ClientHop: the port is stripped from the hop afterwards, by two patterns on one address; that is not modelled.
- AtomicAmount.ScaleExact: prices other than text and numbers, and the digits `String` renders a number with, are taken as given.
- CfnResponse.Serialize: the members of the response other than `Reason` are two fixed pieces of JSON text.
- StreamWriter.WriteString: binary bodies, streams as bodies and errors of the stream are left out.
- The HTTP runner of ecs-http: its primary process restarts workers as the batch runner's does, which `Primary` models, without the code for a closed source, and its event builders copy fields one by one.
- Signature verification, DPoP and PASETO: they rest on cryptographic libraries, of which nothing can be stated here.
- CORS and security headers, loggers, body parsers and option schemas: each sets or checks fields of one request, with no state between requests and no order to keep.
