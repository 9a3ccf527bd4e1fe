# PaymentGateway: a Dafny model of the payment pipeline

PaymentGateway is a three-service, event-driven payment pipeline written in C#:

- **PaymentAPI** authenticates a merchant's `POST /api/payments` with an API key looked up in Redis. It publishes a `PaymentRequestReceived` event to the Kafka topic `payment-requests` and answers 202 Accepted / "Pending" at once.
- **PaymentProcessor** consumes `payment-requests`. It calls a simulated bank under a wait-and-retry policy (3 retries, 2^n-second pauses), writes a `TransactionLog` document to MongoDB, then publishes a `PaymentProcessed` event to `payment-outcomes`.
- **WebhookSender** consumes `payment-outcomes` with auto-commit off. For each outcome it launches a webhook POST to the merchant's URL under a wait-and-retry policy (5 retries, 2^n-second pauses) without waiting for it, then commits the message's offset.

The model turns each service's handling of one request or message into a pure function. Its inputs are the request, plus the answers of every outside party as data:

- the Redis store as a map, and whether the read of it answered or threw;
- the minted GUID;
- whether the broker acknowledged, cancelled or failed a produce;
- how each bank call or POST ends, as a function from the attempt number;
- whether the insert and the commit worked;
- the clock.

Each function returns a trace of the effects that service performs, in order. "Durable" effects are publishing, inserting and committing. A loop's run over a series of iterations is the concatenation of its steps.

Files:

- `contracts.dfy` (module `Contracts`): the shared event records, the DTO, the stored document and the webhook payload, topic names and status strings.
- `retry.dfy` (module `Retry`): the wait-and-retry policy both workers configure, with the independent stopping-point characterisation `IsStop`, the pause schedule and its total.
- `effects.dfy` (module `Effects`): effects, traces, `Published`, and the trace of a retried call.
- `gateway.dfy` (module `Gateway`): `PaymentsController.CreatePayment`.
- `processor.dfy` (module `Processor`): the authorization worker.
- `dispatcher.dfy` (module `Dispatcher`): the webhook dispatcher.

Where the code and its design notes differ, the model follows the code:

- The bank stub fails when `Random.Next(1, 4) == 1`, which is one draw in three. The comment beside it says 25%.
- On success, `FailureReason` of the outcome and `Reason` of the document carry the success note "Plaćanje uspješno autorizirano." rather than being empty.
- The webhook payload's time field is named `Timestamp`. It is read once, before the first attempt, so every retry sends the same body.
- The webhook policy retries only `HttpRequestException` and non-success statuses. Any other exception, such as a timeout, ends the delivery on its first occurrence and is only logged.
- A store read or a produce in the controller that throws escapes the action. The host answers with a 500, modelled as `ServerError`.

## Model

| member | source | states |
|---|---|---|
| Retry.RetryWithBackoff | src/PaymentProcessor/Worker.cs:25-27 | The call runs at least once and at most maxRetries+1 times. It stops at the unique attempt where every earlier outcome was retried and this one either is not retryable or exhausts the budget. The pauses are 2^1..2^(attempts-1) seconds. The policy yields the last outcome. |
| Retry.RetryFrom | src/WebhookSender/Worker.cs:23-26 | An execution resumed at attempt n has delays 2^(n+1).., retried every attempt it skipped, and yields a non-retryable outcome whenever it stopped within budget. |
| Retry.RetryStopsExactlyAtStop | src/PaymentProcessor/Worker.cs:25-27 | The number of attempts is k+1 exactly when attempt k is the stopping point. Both directions are proved. |
| Retry.FirstSuccessStops | src/PaymentProcessor/Worker.cs:63 | A first outcome the policy does not handle ends the execution after one call, with no pause. |
| Retry.AlwaysFailingExhausts | src/PaymentProcessor/Worker.cs:25-27 | If every attempt is retryable, the whole budget of maxRetries+1 calls is used and a retryable outcome is yielded. |
| Retry.ScheduleTotal | src/PaymentProcessor/Worker.cs:27 | Pausing before retries 1..k takes 2^(k+1)-2 seconds in all. |
| Retry.ScheduleIncreasing | src/WebhookSender/Worker.cs:26 | The pauses grow strictly from one retry to the next. |
| Retry.RetryTotalDelayBounded | src/WebhookSender/Worker.cs:26 | An execution never pauses longer than 2^(maxRetries+1)-2 seconds in all. |
| Retry.SchedulePrefix | src/PaymentProcessor/Worker.cs:27 | A run that stops early paused exactly as a full run began. |
| Effects.PublishedAppend | src/PaymentProcessor/Worker.cs:53-84 | Publishes of consecutive steps are the publishes of the first step followed by those of the second. |
| Effects.AttemptTraceQuiet | src/PaymentProcessor/Worker.cs:63 | Retrying a call that changes nothing durable changes nothing durable, however often it runs. |
| Effects.AttemptTraceCalls | src/WebhookSender/Worker.cs:119 | A retried call appears once per attempt: once more than there were pauses. |
| Gateway.StatusCode | src/PaymentAPI/Controllers/PaymentsController.cs:29-57 | The status is 401 exactly for an Unauthorized response and 202 exactly for an Accepted one. Every other response is an error status. |
| Gateway.ApiKeyLookupKey | src/PaymentAPI/Controllers/PaymentsController.cs:34 | The store key is the literal "apikeys:" followed by the caller's key, unchanged. |
| Gateway.LookupKeyInjective | src/PaymentAPI/Controllers/PaymentsController.cs:34 | Distinct API keys are looked up under distinct store keys. |
| Gateway.CreatePayment | src/PaymentAPI/Controllers/PaymentsController.cs:25-58 | A null or empty key gives 401 "API Key is missing." with no effect at all. Otherwise the first effect is the lookup of "apikeys:"+key. A lookup that throws gives a 500 after that lookup alone. A missing or empty stored name gives 401 "Invalid API Key." after that lookup alone. A valid key whose publish is not acknowledged gives a 500 after that lookup alone. The call is accepted exactly when the key is present, the lookup answered, the key is valid and the produce was acknowledged. Then exactly one event is published, on `payment-requests`, after the lookup, and the response carries its id with status "Pending". A rejected or failed call changes nothing durable. Nothing is published on any other topic. |
| Gateway.PublishedEventCopiesRequest | src/PaymentAPI/Controllers/PaymentsController.cs:42-51 | The published event carries the response's transaction id, the DTO's order id, amount, currency, card number and webhook URL, and the caller's API key. |
| Gateway.SubmissionTrace | src/PaymentAPI/Controllers/PaymentsController.cs:42-54 | One call publishes exactly one request when it is accepted and none otherwise, and that request carries the GUID minted by the call. |
| Gateway.ServeAll | src/PaymentAPI/Controllers/PaymentsController.cs:42-54 | Every request published by a series of calls carries the GUID minted by one of its accepted calls. |
| Gateway.DistinctIdsStayDistinct | src/PaymentAPI/Controllers/PaymentsController.cs:42-54 | A GUID is minted only after both key checks pass. When the accepted calls mint pairwise distinct GUIDs, no two published requests share a transaction id; rejected calls are unconstrained. |
| Processor.ProcessPaymentWithBank | src/PaymentProcessor/Worker.cs:89-102 | The stub throws exactly on a draw of 1 from 1..3. When it returns, it reports success: there is no decline path. |
| Processor.Settle | src/PaymentProcessor/Worker.cs:63-71 | An exhausted bank call or a failed insert leaves nothing and the loop goes on. Otherwise the first effect is the insert of the request's own document, marked "Success" exactly when the bank succeeded and carrying its reason. A publish follows only if the broker acknowledged. Only a cancelled produce stops the loop. |
| Processor.ProcessRequest | src/PaymentProcessor/Worker.cs:58-83 | An exhausted retry or a failed insert leaves no durable effect and the loop continues. Every published outcome immediately follows the insert of a document it agrees with. The loop stops exactly on a cancelled produce after a stored document. |
| Processor.DurableEffectsOfRequest | src/PaymentProcessor/Worker.cs:104-119 | After the bank calls, the trace holds the request's document exactly when the call returned and the insert worked. The document carries the request's id, order, reason, status and request data. Then comes one `payment-outcomes` publish agreeing with the document, exactly when acknowledged, and nothing else. |
| Processor.OneOutcomePerStoredRequest | src/PaymentProcessor/Worker.cs:66-71 | Exactly one outcome is published for a returned, stored and acknowledged request, and none otherwise. |
| Processor.BankCallsBounded | src/PaymentProcessor/Worker.cs:27 | The bank is called once per attempt of the policy, at most four times per request. |
| Processor.BankBackoffBounded | src/PaymentProcessor/Worker.cs:27 | The pauses are 2, 4 and 8 seconds, or a prefix of that list, at most 14 seconds in all. |
| Processor.BankDownDropsRequest | src/PaymentProcessor/Worker.cs:63-83 | A bank that always throws is called four times, with pauses 2, 4 and 8. Then no document is stored, no outcome is published, and the loop goes on. |
| Processor.FailTwiceThenAuthorise | src/PaymentProcessor/Worker.cs:25-27 | Two throws then a return: three calls, pauses 2 and 4, then the successful document is stored and its "Success" outcome published. |
| Processor.HandleIteration | src/PaymentProcessor/Worker.cs:55-83 | A cancelled consume stops the loop. A failed consume or an undeserialisable message does nothing and continues. A decoded request stops the loop only on a cancelled produce after a stored document. |
| Processor.RunInsertPrecedesPublish | src/PaymentProcessor/Worker.cs:53-84 | Over any run of the loop, each published outcome immediately follows the insert of a matching document. |
| Processor.RequestOnlySuccess | src/PaymentProcessor/Worker.cs:96-101 | Handling one request never writes or publishes "Failure". |
| Processor.FailureUnreachable | src/PaymentProcessor/Worker.cs:96-101 | No run of the loop ever stores or publishes a "Failure" status, because the stub never declines. |
| Dispatcher.SendWebhook | src/WebhookSender/Worker.cs:102-134 | A delivery has no durable effect, whatever its result. Every effect is the same POST to the outcome's URL, or a pause. A logged delivery carries a success status; a logged give-up carries a failure status. |
| Dispatcher.PayloadCopiesOutcome | src/WebhookSender/Worker.cs:107-119 | Every POST goes to the outcome's webhook URL. Its body copies the transaction id, order id, status and failure reason. |
| Dispatcher.WebhookAttemptsBounded | src/WebhookSender/Worker.cs:26 | The POST is sent once per attempt, at most six times per outcome. |
| Dispatcher.WebhookBackoffBounded | src/WebhookSender/Worker.cs:26 | The pauses are 2, 4, 8, 16 and 32 seconds, or a prefix of that list, at most 62 seconds in all. |
| Dispatcher.DeliveredIffSuccessWithinBudget | src/WebhookSender/Worker.cs:23-26 | A delivery succeeds exactly when some attempt within the six gets a 2xx status and every earlier attempt was a retried failure. Both directions are proved. |
| Dispatcher.HandleIteration | src/WebhookSender/Worker.cs:60-90 | Only a fatal consume error or a cancellation ends the loop. An empty poll, a non-fatal error or an undeserialisable message does nothing. A decoded outcome first launches its delivery, then commits the position after its offset when the commit works, and nothing else. |
| Dispatcher.Dispatch | src/WebhookSender/Worker.cs:70-76 | A delivery runs exactly when the iteration launched one, which is exactly for a decoded outcome. Every POST of that delivery goes to the launched outcome's webhook URL with the body built from that outcome. |
| Dispatcher.CommitIgnoresDelivery | src/WebhookSender/Worker.cs:74-76 | The loop's effects are the same whatever the webhook endpoint answers. A committed decoded outcome moves the position past its offset even when the delivery is given up or fails. |
| Dispatcher.CommittedPosition | src/WebhookSender/Worker.cs:47 | With auto-commit off, the position is that of the last explicit commit, or the initial position if there was none. |
| Dispatcher.CommittedPositionAppend | src/WebhookSender/Worker.cs:58-91 | The position after two stretches of effects is the position the second stretch reaches from where the first left it, so a run's position can be followed iteration by iteration. |
| Dispatcher.RunCommitFollowsLaunch | src/WebhookSender/Worker.cs:58-91 | Over any run of the loop, a commit always comes right after the launch of a delivery. |
| Dispatcher.IdleRunKeepsPosition | src/WebhookSender/Worker.cs:62-67 | A run with no decoded outcome has no effect and leaves the committed position where it was. |
| Dispatcher.FailFiveTimesThenDeliver | src/WebhookSender/Worker.cs:26 | Five 500 responses then a 200: six POSTs, pauses 2, 4, 8, 16 and 32, delivered. The position was committed in the same iteration that launched the delivery. |

## Left out

- Kafka, Redis, MongoDB and HTTP client internals: their answers are inputs (answered or failed store read; acknowledged, cancelled or failed produce; stored or failed insert; commit result; HTTP outcome per attempt).
- Serialisation: JSON text is `Wire`, either an encoded event or malformed text. A message whose JSON deserialises to null is treated as malformed, because it ends the same way, in the generic catch.
- `decimal`, `DateTime` and `Guid` are opaque data. GUID minting is a parameter, so uniqueness is a precondition of `Gateway.DistinctIdsStayDistinct`, not a theorem.
- Real waiting, the 1-second simulated bank latency and the 1-second poll timeout: pauses appear only as `Wait` effects.
- Randomness: the bank's draws are an input function.
- Concurrency: the fire-and-forget delivery is modelled as launched before the commit and completing separately. Interleavings of concurrent deliveries with each other and with the loop are not modelled.
- The PaymentProcessor consumer's auto-commit: its timing is the client library's, so no commit effects are modelled for it. Redelivery after a crash is therefore not modelled.
- Partitions: `payment-outcomes` is taken to have a single partition. Offsets and commits carry no partition, and `Dispatcher.CommittedPosition` is the position of that one partition. With several partitions each commit would move only its own partition's position.
- Consumer-group identity: the WebhookSender's per-start random group id means each start re-reads the topic from the earliest offset. Process restarts are not modelled.
- A produce that fails after the broker stored the message: the model treats a failed or cancelled produce as not published.
- C# null strings inside the DTO and `[ApiController]` model validation: DTO fields are always present strings.
- Logging: log lines are not effects. The delivery's logged result is `DeliveryResult`.
- The consumer-construction failure path and `consumer.Close()` in WebhookSender (lines 92-97): the model starts inside the loop.
- Program.cs hosting, dependency injection and Swagger.
