# attributes-events-restore, modelled in Dafny

This project models the restore pipeline of attributes-events-restore. The
pipeline replays attribute events from a queue into two tables: attribute
values, keyed by `valueKey`, and attribute definitions, keyed by
(`tenantId`, `id`).

- **The restorers.** For a Created, Updated or Deleted event, a restorer
  reads the stored record. It skips the event when the event is older than
  the record. Otherwise it writes the event's data, with an update
  expression for the `createdAt`/`updatedAt` watermarks.
- **The models.** These are the `valueKey` rule and the three store calls.
  `update` clears `dateDeleted`; `delete` keeps it.
- **The message handler.** It routes a decoded message by `EventType` and
  forwards any failure to the dead-letter queue (DLQ), with diagnostic
  attributes capped at ten.
- **The worker Lambda.** It counts every finished message task, stops when
  its time budget runs low, and reports a summary.
- **The master.** It invokes the worker again and again while a
  continuation token comes back, and reports statistics.

Files and modules:

| file | module | models |
|---|---|---|
| `wrappers.dfy` | `Wrappers` | `Option`, `Result` |
| `store.dfy` | `Store` | stored items and what one update call does to them |
| `update_expressions.dfy` | `UpdateExpressions` | the `updates` object the restorers build step by step |
| `replay_rules.dfy` | `ReplayRules` | the skip tests and the writes of the three rules, for any key and entity |
| `events.dfy` | `Events` | the decoded event and the errors reading it raises |
| `value_model.dfy` | `ValueModel` | worker/models/valueModel.js |
| `definition_model.dfy` | `DefinitionModel` | worker/models/definitionModel.js |
| `value_restorer.dfy` | `ValueRestorer` | worker/restorers/valueRestorer.js |
| `definition_restorer.dfy` | `DefinitionRestorer` | worker/restorers/definitionRestorer.js |
| `message_handler.dfy` | `MessageHandler` | worker/messageHandler.js |
| `worker.dfy` | `Worker` | worker/lambda.js |
| `master.dfy` | `Master` | cli/master.js |

Timestamps are epoch milliseconds, written `Option<int>`. A missing or
unparseable timestamp is `None`. It stands for JavaScript's `NaN`, so every
comparison with it is false and no skip test fires. The tables are maps.
The worker's SQS processor and the master's Lambda service are modelled by
the sequence of events or responses they produce.

## Model

| member | source | states |
|---|---|---|
| Store.Assign | worker/restorers/valueRestorer.js:20-32 | `SET #a = :v` sets that watermark. `DELETE #a :v` clears it only when it holds `v`. The other watermark, the entity's attributes and `dateDeleted` are untouched. |
| Store.AssignAllWatermarks | worker/restorers/valueRestorer.js:20-32 | Applying an expression's clauses in order: a watermark no clause names keeps its value, and the last `SET` on an attribute is the value it ends with. |
| Store.UpdateItem | worker/models/valueModel.js:31-41 | Writes the record under its key with `dateDeleted` null. Every other key is unchanged. A watermark no clause names keeps its stored value (none for a new record), and the last `SET` on a watermark decides it. |
| Store.DeleteItem | worker/models/valueModel.js:43-47 | Writes the record with the `dateDeleted` the caller set. Every other key is unchanged. The watermarks follow the clauses as for `update`. |
| Store.Get | worker/models/valueModel.js:25-29 | A record is returned exactly when the key is stored, and it is the stored record. |
| UpdateExpressions.BuildCreatedUpdates | worker/restorers/valueRestorer.js:19-33 | The built object is well formed: every placeholder in the expression is bound in the right dictionary, and nothing else is. It sets `createdAt` to the event's. Only when a record was read does it also delete the stored `updatedAt`. |
| UpdateExpressions.BuildTimestampUpdates | worker/restorers/valueRestorer.js:61-70 | The built object is well formed and sets `updatedAt` and `createdAt` to the event's. |
| ReplayRules.ReplayCreated | worker/restorers/valueRestorer.js:14-40 | Skipped exactly when a record exists with a strictly later `createdAt`. Otherwise the record is the event's data with the event's `createdAt`, no `updatedAt`, not deleted. |
| ReplayRules.ReplayUpdated | worker/restorers/valueRestorer.js:56-77 | Skipped exactly when a record exists with a strictly later `updatedAt`. Otherwise the record is the event's data and timestamps, not deleted. |
| ReplayRules.ReplayDeleted | worker/restorers/valueRestorer.js:93-115 | Skipped only when the record is deleted strictly after the event. Otherwise the record is the event's data, deleted at the event's `updatedAt`. |
| ReplayRules.SkipsIffNoWrite | worker/restorers/valueRestorer.js:15-17 | A skipped event leaves the table as it was. Any other event stores its own data under the key. |
| ReplayRules.ReplayIdempotent | worker/restorers/valueRestorer.js:57-77 | Replaying any event a second time leaves the table as the first replay left it. Equal timestamps are not skipped. |
| ReplayRules.UpdatedLastWriteWins | worker/restorers/valueRestorer.js:57-59 | When the later of two Updated events is not stale, both delivery orders give the same table, holding the later event's data. |
| ReplayRules.DeletedBeforeDeletionIsNoOp | worker/restorers/valueRestorer.js:94-96 | A Deleted event older than the stored deletion changes nothing. |
| ReplayRules.CreatedRevivesDeleted | worker/restorers/valueRestorer.js:15-40 | A Created event that is not stale undeletes a deleted record, because `update` clears `dateDeleted`. |
| ReplayRules.ReplayOrderMatters | worker/restorers/valueRestorer.js:57-59 | Two Updated events delivered out of order can leave the older data in place. The final record depends on delivery order. |
| Events.EventObjectOf | worker/restorers/valueRestorer.js:127-134 | The event object is read exactly when both `EventBody` and `Object` are present, and it is `EventBody.Object`. A missing `EventBody` raises the TypeError naming `Object`; a missing `Object` raises the one naming `Id`. |
| ValueModel.ValueKeyPatternIsRegex | worker/models/valueModel.js:8-9 | Splitting the key at its colons decides exactly `^d2l:[\w-]+:(user\|group)+:[\w-]+$`. |
| ValueModel.ValidValueKeyIsRegex | worker/models/valueModel.js:8-9 | A `valueKey` is valid exactly when it has 1 to 128 characters and matches the regular expression. |
| ValueModel.JoinSplit | worker/models/valueModel.js:9 | Splitting a key at its colons loses nothing: the parts rejoin to the key. |
| ValueModel.ReadOne | worker/models/valueModel.js:25-29 | A value is found exactly when its `valueKey` is stored. The found value is the stored record, and in a table keyed by `valueKey` it carries that key. |
| ValueModel.Update | worker/models/valueModel.js:31-41 | Writes under `valueKey` with `dateDeleted` null whatever the data carried. Other keys are unchanged, and values stay keyed by `valueKey`. A watermark the expectation does not name keeps its stored value; the last `SET` on a watermark decides it. |
| ValueModel.Delete | worker/models/valueModel.js:43-47 | Writes under `valueKey` with the caller's `dateDeleted`. Other keys are unchanged, and values stay keyed by `valueKey`. The watermarks follow the expectation as for `update`. |
| DefinitionModel.ReadOne | worker/models/definitionModel.js:31-35 | A definition is found exactly when its (`tenantId`, `id`) pair is stored, and it is the stored record. |
| DefinitionModel.Update | worker/models/definitionModel.js:37-46 | Writes under (`tenantId`, `id`) with `dateDeleted` null. Other keys are unchanged, and the table stays keyed by the pair. The watermarks follow the expectation's clauses. |
| DefinitionModel.Delete | worker/models/definitionModel.js:49-52 | Writes under (`tenantId`, `id`) with the caller's `dateDeleted`. Other keys are unchanged. The watermarks follow the expectation's clauses. |
| ValueRestorer.RestoreCreatedEvent | worker/restorers/valueRestorer.js:6-46 | Skipped exactly when the read value was created strictly after the event. Otherwise the value is the event's data with its `createdAt` and no `updatedAt`, not deleted. |
| ValueRestorer.RestoreUpdatedEvent | worker/restorers/valueRestorer.js:48-83 | Skipped exactly when the read value was updated strictly after the event. Otherwise the value is the event's data and timestamps, not deleted. |
| ValueRestorer.RestoreDeletedEvent | worker/restorers/valueRestorer.js:85-121 | An absent or undeleted value is never skipped. A value deleted strictly after the event is. Otherwise the value is deleted at the event's `updatedAt`. |
| ValueRestorer.RestoreEvent | worker/restorers/valueRestorer.js:123-149 | A missing body or object fails with a TypeError, and an unknown action fails with "Unknown event action: <action>". Otherwise the rule for the action is replayed at `Object.Id`, and the result says whether the rule wrote or skipped; a skip leaves the table unchanged. Only that key can change. |
| ValueRestorer.RestoreEventIdempotent | worker/restorers/valueRestorer.js:123-149 | Re-delivering a restored value event succeeds again and changes nothing. |
| ValueRestorer.RestoreEventKeepsKeys | worker/restorers/valueRestorer.js:127-128 | Restoring keeps every value under its own `valueKey`. |
| DefinitionRestorer.RestoreCreatedEvent | worker/restorers/definitionRestorer.js:6-45 | The same Created rule, for the definition stored under the event's (`tenantId`, `id`). |
| DefinitionRestorer.RestoreUpdatedEvent | worker/restorers/definitionRestorer.js:47-81 | The same Updated rule, for definitions. |
| DefinitionRestorer.RestoreDeletedEvent | worker/restorers/definitionRestorer.js:83-118 | The Deleted rule as its guard intends. The rule skips only a definition deleted strictly after the event. Otherwise it writes the definition deleted at the event's `updatedAt`. |
| DefinitionRestorer.RestoreDeletedEventAsWritten | worker/restorers/definitionRestorer.js:92-94 | The rule as written fails exactly when the stored definition has a `dateDeleted`. When it does not fail, it writes what the intended rule writes. |
| DefinitionRestorer.DeletedRedeliveryAsWritten | worker/restorers/definitionRestorer.js:92-112 | Delivered twice, a Deleted event is a no-op the second time under the intended rule. Under the rule as written, the second delivery throws. |
| DefinitionRestorer.RestoreEvent | worker/restorers/definitionRestorer.js:120-143 | The same projection errors and unknown-action error as the value restorer. Otherwise the action's rule is replayed at (`TenantId`, `Object.Id`), with whether it wrote or skipped, and only that key can change. |
| DefinitionRestorer.RestoreEventIdempotent | worker/restorers/definitionRestorer.js:120-143 | Re-delivering a restored definition event succeeds again and changes nothing. |
| DefinitionRestorer.RestoreEventKeepsKeys | worker/restorers/definitionRestorer.js:123-125 | Restoring keeps every definition under its own (`tenantId`, `id`) pair. |
| MessageHandler.Diagnostics | worker/messageHandler.js:15-27 | Exactly the three keys `err.message`, `err.stack` and `context.awsRequestId`, each a `String` attribute holding the error's message, its stack and the request id. |
| MessageHandler.Defaults | worker/messageHandler.js:15-28 | The merge has the keys of both maps. The diagnostics win where both have a key, and every other message attribute is kept. |
| MessageHandler.DlqAttributes | worker/messageHandler.js:12-33 | Every message attribute survives. A value is lost only to a same-named diagnostic. The diagnostics are all there unless the merge exceeds ten keys, and then the result is exactly the message's own attributes. |
| MessageHandler.DlqAttributesWithinLimit | worker/messageHandler.js:30-33 | A message arriving with at most ten attributes leaves with at most ten. |
| MessageHandler.DlqAttributesCarryDiagnostics | worker/messageHandler.js:12-33 | A message with at most seven attributes always gets the three diagnostics. |
| MessageHandler.ProcessMessage | worker/messageHandler.js:60-74 | A parse error fails. "AttributeEvent" restores into the value table only, and "AttributeDefinitionEvent" into the definition table only. Any other type fails with "unkown event type". A restorer's error is passed on, and so is whether its rule wrote; a skip leaves both tables unchanged. |
| MessageHandler.Forward | worker/messageHandler.js:14-39 | The DLQ request carries the unchanged body to `dlqUrl`. A message with at most seven attributes carries the error's message as `err.message`. |
| MessageHandler.HandleMessageAsWritten | worker/messageHandler.js:53-89 | The handler as written: the assertions reject first. A written event resolves to the `success` flag. A skipped event resolves to `undefined`, so reading `success` throws and the message goes to the DLQ, like a failure. |
| MessageHandler.StaleUpdatedSkipped | worker/restorers/valueRestorer.js:56-59 | An Updated value event older than the stored value is skipped and leaves the tables unchanged. |
| MessageHandler.StaleEventQuarantinedAsWritten | worker/messageHandler.js:75-82 | For a stale Updated event, the handler as written sends the message to the DLQ with "Cannot read property 'success' of undefined". The intended handler acknowledges it without writing or forwarding. |
| MessageHandler.MissingOption | worker/messageHandler.js:54-57 | No assertion fails exactly when `message`, `attributeTable`, `definitionTable` and `dlqUrl` are all present. |
| MessageHandler.HandleMessage | worker/messageHandler.js:53-89 | The assertions are checked in source order, and nothing is written or sent when one fails. After them, the handler never rejects. A written event resolves to the `success` flag of the store's result. A skipped event is acknowledged: it resolves to true with nothing written or sent. Whenever the handler rejects or forwards, it does exactly what the handler as written does. A failure leaves the tables alone and sends the unchanged body to `dlqUrl` with the capped attributes. It then resolves to whether the DLQ accepted the message. |
| MessageHandler.NoMessageLost | worker/messageHandler.js:75-89 | A message is removed from the queue only if it was written with a truthy `success`, skipped with the tables unchanged, or handed unchanged to the DLQ and accepted. |
| MessageHandler.HandleMessageTouchesOneEntry | worker/messageHandler.js:64-67 | A message changes at most the table its `EventType` names, and only when its event has an object. |
| MessageHandler.HandleMessageIdempotent | worker/messageHandler.js:53-89 | Handling the same message twice leaves the tables as handling it once did. |
| Worker.MissingParameter | worker/lambda.js:11-16 | No assertion fails exactly when all six parameters are truthy. For each of the six, when every earlier one is present and it is missing, its "missing event.<name>" message is reported. |
| Worker.DeletedOf | worker/lambda.js:57-63 | As many messages are deleted as tasks resolve truthy. |
| Worker.FirstSettling | worker/lambda.js:39-52 | The run settles at the first `stopped` event or the first error that is not a receive failure. |
| Worker.DeletedIffTruthy | worker/lambda.js:57-60 | A message is deleted exactly when a task for it resolves truthy. |
| Worker.WorkerRun.constructor | worker/lambda.js:20-25 | All counters are zero, no task has started, and the budget is `terminationTimeInSec * 1000`. |
| Worker.WorkerRun.OnData | worker/lambda.js:55-67 | The message's task is appended to `startedWorkerTasks`. Nothing else changes. |
| Worker.WorkerRun.OnStats | worker/lambda.js:68-73 | The processor is told to stop exactly when the remaining time is below the budget. |
| Worker.WorkerRun.OnError | worker/lambda.js:39-49 | "Failed to receive messages" only increments the metric. Any other error stops the processor and rejects the run if it has not settled. |
| Worker.WorkerRun.OnStopped | worker/lambda.js:50-52 | The run resolves if it has not settled. |
| Worker.WorkerRun.FinishTask | worker/lambda.js:57-65 | A finished task adds one processed message. A truthy result also deletes the message and counts a success; a falsy one counts a failure. `processed == succeeded + failed` is kept. |
| Worker.WorkerRun.Cleanup | worker/lambda.js:27-32 | Every started task finishes. The counters and deleted messages are those of all tasks. |
| Worker.Handle | worker/lambda.js:10-92 | The outcome is a failed assertion, the summary, the fatal error, or never settling. Its summary counts every task started before the run settled, with processed = succeeded + failed. The deletions are the same on the resolve and reject paths. The stop request and the receive-failure metric follow the events seen. |
| Master.LambdaResultOf | cli/master.js:27-47 | A missing REPORT line or a bad payload throws, and a `FunctionError` aborts with "Aborting due to Lambda error". Otherwise the result is the payload's continuation token. |
| Master.RequestPayload | cli/master.js:52-60 | The invocation payload carries the token and the worker's rate and time budget. |
| Master.RequestPayloadAsWritten | cli/master.js:52-60 | The payload as written carries the token but no rate and no time budget. |
| Master.PayloadAsWrittenRejected | cli/master.js:52-60 | Every invocation as written fails the worker's `ratePerSecond` assertion. |
| Master.PayloadAccepted | cli/master.js:52-60 | With the rate and the budget forwarded, a master with non-empty options passes the worker's checks. |
| Master.Master.constructor | cli/master.js:14-25 | All four sums are 0 and the billed time is 0. |
| Master.Master.ProcessLambdaResult | cli/master.js:27-47 | Returns `LambdaResultOf`. The billed time grows by the invocation's billed time once the REPORT line is read, and the sums are untouched. |
| Master.Master.ProcessPrefix | cli/master.js:49-72 | Invocation 1 carries no token. Each further one carries the truthy token its predecessor returned and the next number. The chain stops at the first falsy token or abort. The billed time grows by exactly the answered invocations' billed time. |
| Master.Master.GetStats | cli/master.js:88-98 | The four sum titles with their values, in declaration order, then the billed time, then the wall-clock time: six entries. |

## Assumptions

The source has defects that stop parts of it from running. The model follows
what each piece evidently intends:

- The three `restore*Event` functions in both restorers never return their
  promise chain, so `restoreEvent` yields `undefined`. The model treats the
  restore as finished, with its write or its error, before the handler goes on.
  The chain it returns then resolves to the store's result when the rule
  writes, and to `undefined` when the rule skips the event.
- worker/restorers/valueRestorer.js:124 and
  worker/restorers/definitionRestorer.js:121 call `new ValueModel(...)` and
  `new DefinitionModel(...)`, but both model files export plain objects, so
  the call throws "is not a constructor". The model calls the exported
  `readOne`, `update` and `delete` directly.
- worker/messageHandler.js:65 and :67 never pass the table names on, and the
  models define their tables with an empty name
  (worker/models/valueModel.js:12, worker/models/definitionModel.js:9). The
  model has one value table and one definition table, and the
  `attributeTable` and `definitionTable` options only feed the assertions.
- worker/restorers/definitionRestorer.js:9-12, :50-53 and :86-89 call
  `readOne` with the id alone. worker/models/definitionModel.js:31 expects
  (`tenantId`, `defId`), so the model reads under the event's (`TenantId`,
  `Object.Id`).
- worker/restorers/definitionRestorer.js:121 names an undefined table. The
  model writes the one definition table.
- worker/messageHandler.js:59 reads `option.context` and :61 an unbound
  `message`, and `_` (lodash) is never imported. The model uses
  `options.context`, `options.message` and lodash's `_.defaults`.
- worker/lambda.js:56 calls the message handler with `(context, message)`
  instead of an options object. The worker model takes each task's result as
  given.
- worker/lambda.js:88 returns an undefined `nextContinuationToken`. The
  model's summary carries no token.
- cli/master.js:79-80 refers to undefined `prefixes` and `_processMessage`,
  so `run` is not modelled (see Left out).
- The `success` property of the store's result (worker/messageHandler.js:75)
  is not visible to the model. When a rule writes, the handler takes it as
  a parameter. When a rule skips, the result is `undefined`; see Findings.

## Left out

- I/O and the AWS plumbing are not modelled: logging, metrics publishing,
  the SQS client, the Lambda client and the vogels/DynamoDB client.
  The tables are maps, and the SQS processor and the Lambda service are
  sequences of events and responses.
- ISO-8601 date parsing: timestamps are integers, and an unparseable one is
  `None`.
- Schema validation on writes, including the joi `uri({scheme: 'd2l'})`
  check. Only the `valueKey` length bound and regular expression are
  modelled.
- vogels' automatic `createdAt`/`updatedAt` (`timestamps: true`), and the
  type check DynamoDB applies to `DELETE` on a scalar. `DELETE #updatedAt
  :v` is modelled as removing the watermark when it holds `v`.
- The update expression is modelled as its list of clauses, not its text.
- Concurrency: promise interleaving, the SQS processor's rate limiting, and
  tasks finishing while the run is still receiving. In the model, tasks
  finish in start order during cleanup, and events after the run settles
  are not consumed.
- Worker.Handle: `processor._deleteMessages()` (the flush of the deletions)
  is not modelled. `deleted` is the set of messages marked for deletion.
- MessageHandler.HandleMessage: the error's `stack`, the DLQ's acceptance
  and the `success` flag of the store's result are parameters. The `_logged` marks
  only steer logging.
- Master.GetStats: the billed and wall-clock times are reported in
  milliseconds. The division into minutes and `toFixed(2)` formatting are
  not modelled, and the wall-clock time is a parameter.
- Master.Master.ProcessLambdaResult: the REPORT line is reduced to its
  billed duration, and the regular expression over the log tail and the
  `/ 1000` float division are not modelled. Execution time and maximum
  memory only feed a log line.
- `Master.run`: its point is parallel processing of `prefixes`, which
  exist nowhere in the repository.
- The master's `_sums` are never added to by the source. They are kept at
  0, as written.
- cli/index.js, cli/helpers.js, cli/refire.js, test/post-deployment/e2e.js
  and worker/utils/ are not part of this model. They hold option parsing,
  permission probes, process control, test harnesses and library wrappers.

## Findings

| source | as written | input that shows it | evidently intended | confidence | as-written member | corrected member |
|---|---|---|---|---|---|---|
| worker/restorers/definitionRestorer.js:92 | The Deleted guard reads `value.dateDeleted`, and `value` is bound nowhere in the file. Once the stored definition has a `dateDeleted`, the rule throws a ReferenceError instead of comparing. | The same Deleted event delivered twice, for any definition and `updatedAt`: the second delivery throws. | Compare with `definition.dateDeleted`, as the value restorer does, so a re-delivered Deleted event is a no-op. | not executed | DefinitionRestorer.RestoreDeletedEventAsWritten, DefinitionRestorer.DeletedRedeliveryAsWritten | DefinitionRestorer.RestoreDeletedEvent, DefinitionRestorer.RestoreEventIdempotent |
| cli/master.js:52-60 | The invocation payload carries no `ratePerSecond` and no `terminationTimeInSec`, and worker/lambda.js:15-16 asserts both. | Any master whose region, queue URL and table names are set: every invocation fails with "missing event.ratePerSecond". | Forward the `messagesPerSecond` and `terminationTimeInSec` options that cli/index.js:81-82 passes to the constructor. | not executed | Master.RequestPayloadAsWritten, Master.PayloadAsWrittenRejected | Master.RequestPayload, Master.PayloadAccepted |
| worker/messageHandler.js:75 | `.then(result => result.success)` reads `success` of whatever the restorer resolves to. A rule that skips an event resolves to `undefined`, so the read throws a TypeError, and the message is forwarded to the DLQ as a failure. | An Updated value event whose `updatedAt` is older than the stored value's: it is sent to the DLQ with "Cannot read property 'success' of undefined". | A stale or already superseded event is acknowledged as a no-op and removed from the queue; the DLQ is for messages that cannot be processed. | not executed | MessageHandler.HandleMessageAsWritten, MessageHandler.StaleEventQuarantinedAsWritten | MessageHandler.HandleMessage, MessageHandler.NoMessageLost |
