# A Dafny model of the event and saga back end

The application keeps long-running business processes ("sagas"), an outbox of domain events, an inbox for each
consumer, an activity timeline projected from the events, keyset-paged listings, a compiled filter language, and
several limiters and guards around them. This project models that back end and proves what it promises, or the
exact condition under which it does.

`dafny verify dfyconfig.toml` checks everything.

## How it is modelled

Objects that change their fields are classes whose methods are proved against functions of the old state; the
theorems are about those functions and about state machines made of them. Mongo and Redis calls are atomic steps on
maps with unique keys. Wherever calls interleave, each awaited call is a step of its own and a run is any sequence of
steps of any number of callers, crashes included.

| file | what it models |
|---|---|
| `SagaModel`, `SagaDefinitions` | one saga document, every transition the orchestrator can write, and the nine step tables |
| `SagaInvariants`, `SagaMachine`, `SagaTheorems` | interleaved workers over one document and the outbox; order, finality and dispatch |
| `SagaOperators`, `SagaAttempts`, `SagaCalls` | operator actions, how often steps are started, uninterrupted calls |
| `SagaJobs`, `SagaTimes`, `SagaService` | the jobs that drive a saga on, how long its steps wait; the service and its collection as classes |
| `Inbox`, `Outbox` | consumption with deduplication and quarantine; claiming, publishing, retrying, replaying |
| `Redactor`, `Activity`, `ActivityStore` | redaction, projection, and the activity collection under delivery and rebuild |
| `Timeline`, `ActivityContents` | what the timeline shows a caller of what any run leaves behind; what an activity tells of its event |
| `Keyset`, `KeysetCursors`, `KeysetRepositories` | keyset paging over a fixed and a changing collection; the three kinds of cursor; the three listings and a client's walk through them |
| `FilterModel`, `FilterCompiler`, `FilterTheorems`, `FilterWords` | the filter language and its meaning, the compiler, what connects them, and each word against the request's JSON |
| `StableValue`, `StableValueReading`, `StableValueTheorems` | the canonical argument printer, and idempotency keys |
| `ExecutionGuard` | the worker's lock and counter, interleaved and as a class |
| `RetryBudget`, `SlidingLog`, `Throttler` | token bucket, two sliding logs, fixed window with block |
| `AiMemory`, `AiMemoryCalls`, `CsvLine` | which memory of a fact stays active, call by call and interleaved; the CSV line parser |
| `Options`, `Numbers`, `Clocks` | a value that may be missing, a little arithmetic, points in time |

## What the code does not do

Where a promise fails, the code is modelled as it is and the lemma says exactly when the promise holds.

- Cancelling a saga with a completed step undoes nothing: `advance` tests the cancellation before the branch that
  compensates (`SagaTheorems.CancelledIffNothingCompleted`, `SagaTheorems.ClosedSagaDispatchesNothing`).
- A forward command can follow the start of recovery if a worker was caught between its first write and its append
  (`SagaTheorems.NoStepAfterRecovery`, `SagaTheorems.CancelCanRaceADispatch`).
- A failed compensation is retried without end: its counter is written under a nested path and read under a flat key
  (`SagaCalls.FailedCompensationIsRetried`).
- A step is started more often than its limit by starts that find the document already running, once for each
  (`SagaAttempts.StartsAreBounded`, `SagaCalls.InterleavedAdvancesAreUnbounded`).
- An operator's retry after the first compensation could not be dispatched starts the completed step again instead of
  undoing it (`SagaOperators.RetryAfterFailedUndoStartsTheStep`), and a resumption at the empty step name completes
  the saga (`SagaOperators.OperatorResumeGoesOn`).
- The call that begins a recovery queues no job, so a saga whose step was overdue is left with nothing that drives
  its compensation (`SagaJobs.JobUnlessRecoveryBegins`, `SagaJobs.OverdueStepStalls`).
- A consumer that crashes in its handler strands the event (`InboxProtocol.CrashStrandsTheEvent`).
- A replay gives an event the attempts it had left, or one, not ten (`OutboxProtocol.ReplayGrants`).
- Live consumption and rebuild part on an empty causation id and on dates inside what is read
  (`ActivityProjection.SameRecordIff`).
- A caller who administers by a wildcard permission sees no internal activity: the listing compares the permissions a
  caller holds literally (`Timeline.TimelineRespectsPermissions`).
- Paging loses documents when the sort values are of several BSON types, nulls included
  (`Keyset.PagesReassembleTheListing`, `Keyset.StableDocumentReturnedOnce`).
- A CRM listing fails for a client once a page with more to come ends with a record that lacks the sort field
  (`KeysetRepositories.CrmWalkIsCompleteIff`).
- A relative date whose words are wrapped in an array passes the filter's checks and compiles to another stretch of
  time (`FilterTheorems.RelativeDateMeansItsWordsIffPlain`).
- Keys that the locale compares as equal keep their order in the printed arguments
  (`StableValueTheorems.KeyOrderIsLostIffNoTies`).
- The guard reads its done key before it takes the lock, so a job that is done is worked on again exactly when an
  execution was past that check (`GuardProtocol.DoneJobIsWorkedOnAgainIffLate`).
- A clock set back, and nothing else, overspends the token bucket (`RetryBudget.NoPolicyOverspendsIffForward`) and
  parts the two sliding logs (`SlidingLog.LimitersAgreeIffInOrder`).
- Two interleaved calls can both leave their memory of a fact active, and so can one that crashes between saving its
  memory and superseding the old one (`AiMemoryCalls.OneToStayThroughoutIffNoneLost`); every replacement makes both
  active for a moment (`AiMemoryCalls.OneActiveThroughoutIffNoneCrowds`).

## Model

| member | source | states |
|---|---|---|
| SagaDefinitions.EveryDefinitionIsWellFormed | apps/api/src/modules/sagas/saga-definitions.ts:1-238 | each of the nine tables has distinct step names, positive limits, commands for all steps and compensations, so the theorems apply to all of them |
| SagaDefinitions.NineTypes | apps/api/src/modules/sagas/saga.types.ts:1-11 | just the nine types of saga that may be asked for have a definition, each its own |
| SagaDefinitions.EveryCommandIsItsOwn | apps/api/src/modules/sagas/saga-definitions.ts:1-238 | in each table every step and every compensation issues a command of its own name |
| SagaDefinitions.EveryStepHasAMinute | apps/api/src/modules/sagas/saga-definitions.ts:1-238 | every step has five attempts of a minute, and none that is irreversible is compensated |
| SagaInvariants.NextUndoIsNextInOrder | apps/api/src/modules/sagas/saga.service.ts:301-307 | the reversed scan finds exactly the next element of the reverse completion order when a prefix of it is confirmed |
| SagaInvariants.DecideKeeps | apps/api/src/modules/sagas/saga.service.ts:44-75 | the first write of any `advance` keeps the document invariant, only moves it forward, and dispatches only the first uncompleted step or the next compensation due |
| SagaInvariants.RecoverKeeps | apps/api/src/modules/sagas/saga.service.ts:279-298 | starting or restarting recovery keeps the invariant and what is completed and undone |
| SagaInvariants.SignalKeeps | apps/api/src/modules/sagas/saga.service.ts:107-189 | an accepted signal of either kind and outcome keeps the invariant and only moves the document forward |
| SagaInvariants.CancelKeeps | apps/api/src/modules/sagas/saga.service.ts:191-202 | an accepted cancellation keeps the invariant |
| SagaMachine.AppendKeeps | apps/api/src/modules/sagas/saga-step-executor.service.ts:10-42 | whatever happened since a worker read the document, its append leaves the outbox in order: the command is there already or is the one that may come next |
| SagaMachine.ApplyKeeps | apps/api/src/modules/sagas/saga.service.ts:44-398 | every step of every worker keeps document, outbox and workers consistent |
| SagaTheorems.DispatchOrder | apps/api/src/modules/sagas/saga.service.ts:149-163 | in every interleaved run forward commands go out in definition order and compensations in exactly reverse completion order, without skips or repeats, at most one ahead of what is confirmed |
| SagaTheorems.StatusesMeanWhatTheySay | apps/api/src/modules/sagas/saga.service.ts:254-398 | before recovery `currentStep` is the first uncompleted step; `completed` means all steps; `cancelled` leaves nothing to undo; a waiting saga has a deadline no later than its own and the awaited event in the outbox |
| SagaTheorems.RunEvolves | apps/api/src/modules/sagas/saga.service.ts:279-346 | recovery is final, progress is never lost, and completed steps are fixed once it began |
| SagaTheorems.TerminalIsAbsorbing | apps/api/src/modules/sagas/saga.service.ts:46-47 | `completed` and `cancelled` are absorbing |
| SagaTheorems.NoStepAfterRecovery | apps/api/src/modules/sagas/saga.service.ts:50-77 | once recovery has begun no forward command is issued again, exactly when no worker was caught between deciding and appending one |
| SagaTheorems.CancelCanRaceADispatch | apps/api/src/modules/sagas/saga.service.ts:68-77 | every definition has a run with such a worker |
| SagaTheorems.ClosedSagaDispatchesNothing | apps/api/src/modules/sagas/saga.service.ts:50-63 | a cancelled or timed-out saga issues no command of either kind, exactly when none was in flight |
| SagaTheorems.CancellationUndoesNothing | apps/api/src/modules/sagas/saga.service.ts:51-63 | what was completed and undone at a cancellation stays so for ever |
| SagaTheorems.CancelledIffNothingCompleted | apps/api/src/modules/sagas/saga.service.ts:284-297 | a cancellation can end in `cancelled` exactly when nothing was completed before it |
| SagaOperators.EveryRunTracksItsCommands | apps/api/src/modules/sagas/saga.service.ts:204-245 | what the next row says is kept by every run from wherever it holds: each operation has at most one outbox event, and a waiting saga has the awaited one |
| SagaOperators.EveryCommandOnce | apps/api/src/modules/sagas/saga.service.ts:44-245 | over all runs of a new saga, retries and operator actions included, each operation has at most one outbox event and a waiting saga has the awaited one |
| SagaOperators.OperatorRetryGoesOn | apps/api/src/modules/sagas/saga.service.ts:204-222 | accepted exactly while waiting to retry or for intervention; the next `advance` goes on undoing if some compensation was confirmed, and otherwise starts the current step |
| SagaOperators.OperatorResumeGoesOn | apps/api/src/modules/sagas/saga.service.ts:224-245 | accepted exactly while waiting for intervention and for a step of the definition, none, or an empty name; the next `advance` starts the step named or the current one, completes a saga resumed at no step, and begins the recovery of a cancelled one again |
| SagaOperators.RecoveryUndoesItsStep | apps/api/src/modules/sagas/saga.service.ts:279-346 | a recovery that has undone nothing names the step whose compensation the next `advance` dispatches |
| SagaOperators.RetryAfterFailedUndoStartsTheStep | apps/api/src/modules/sagas/saga.service.ts:204-222 | if that dispatch fails, a retry starts the completed step forward again |
| SagaOperators.EveryStartIsCounted | apps/api/src/modules/sagas/saga.service.ts:65-79 | every start of a step or a compensation counts one on its own counter and none on another |
| SagaOperators.EventIdsAreDistinct | apps/api/src/modules/sagas/saga-step-executor.service.ts:17-18 | distinct operations, of one saga or two, have distinct event ids |
| SagaCalls.CallIsARun | apps/api/src/modules/sagas/saga.service.ts:44-202 | an uninterrupted method call is a run of the interleaved machine |
| SagaAttempts.StartsAreBounded | apps/api/src/modules/sagas/saga.service.ts:65-104 | in every automatic run of a new saga, interleaved and crashing, a step is started at most `maxAttempts` times and once more for each start that finds the document already running; all steps together likewise under the sum |
| SagaAttempts.WithoutOverlapLimitsHold | apps/api/src/modules/sagas/saga.service.ts:65-104 | a run in which no start finds the document running respects every limit |
| SagaCalls.AttemptsAreBounded | apps/api/src/modules/sagas/saga.service.ts:65-104 | in uninterrupted automatic runs no step is started more often than `maxAttempts`, so all starts are bounded by the sum |
| SagaCalls.InterleavedAdvancesAreUnbounded | apps/api/src/modules/sagas/saga.service.ts:67-75 | interleaved advances start a step any number of times |
| SagaCalls.FailedCompensationIsRetried | apps/api/src/modules/sagas/saga.service.ts:121-148 | a failed compensation leads to manual intervention exactly when its step allows at most one attempt |
| SagaJobs.JobUnlessRecoveryBegins | apps/api/src/modules/sagas/saga.service.ts:50-104 | a call that writes and leaves the saga unfinished queues a job to drive it on exactly when it is not the call that begins the recovery |
| SagaJobs.NothingChangesIff | apps/api/src/modules/sagas/saga.service.ts:44-189 | no job and no signal ever changes the stored saga again exactly when it awaits no signal and is finished or has no job queued |
| SagaJobs.OverdueStepStalls | apps/api/src/modules/sagas/saga.service.ts:58-62 | a saga whose last job finds its step overdue begins its recovery and then undoes nothing, whatever jobs and signals follow |
| SagaTimes.DispatchedStepHasItsTime | apps/api/src/modules/sagas/saga.service.ts:372-398 | a step or compensation dispatched at `now` is left alone exactly until `now + timeoutMs` or the saga's own end, whichever comes first; from then on an `advance` begins the recovery, and the job queued falls due at just that instant |
| SagaTimes.FailedStepIsRetried | apps/api/src/modules/sagas/saga.service.ts:80-104 | a step whose command could not be appended waits one, two, four seconds and so on up to a minute before it is started again, and its job falls due then |
| SagaTimes.SagaHasItsTime | apps/api/src/modules/sagas/saga.service.ts:26-51 | in every run an `advance` begins the recovery of an unfinished saga once the definition's time has passed since its creation, and before that starts the step of one that neither waits nor recovers |
| SagaTimes.JobFallsDue | apps/api/src/modules/sagas/saga.service.ts:406-419 | the job of any call is named after a new version and falls due exactly when an `advance` has something to do |
| SagaService.Sagas.Start | apps/api/src/modules/sagas/saga.service.ts:26-42 | an unknown type is refused; a correlation id in use in the workspace yields the saga stored under it and queues nothing; otherwise the first document of the definition is stored without commands and queued once |
| SagaService.Service.Transition | apps/api/src/modules/sagas/repositories/saga.repository.ts:52-77 | a compare-and-set on the version the caller read, which it increments |
| SagaService.Service.Enqueue | apps/api/src/modules/sagas/saga.service.ts:406-419 | a job named after the version just written |
| SagaService.Service.Execute | apps/api/src/modules/sagas/saga-step-executor.service.ts:10-42 | appends the command unless it is there, reports waiting either way, and does nothing for a step without a command |
| SagaService.Service.Advance | apps/api/src/modules/sagas/saga.service.ts:44-105 | one `advance` with nothing in between performs exactly the modelled transition, queues exactly the job the job function says, and keeps the invariant |
| SagaService.Service.Dispatch | apps/api/src/modules/sagas/saga.service.ts:76-104 | a dispatch and the write that follows it, for each outcome of the append, with the job for the deadline or the retry |
| SagaService.Service.Compensate | apps/api/src/modules/sagas/saga.service.ts:300-346 | one turn of the compensating branch, with its job |
| SagaService.Service.Signalled | apps/api/src/modules/sagas/saga.service.ts:107-189 | accepted exactly while waiting for the step; success adds the step to what is completed or undone; a job follows unless the saga ends or recovers |
| SagaService.Service.CancelRequested | apps/api/src/modules/sagas/saga.service.ts:191-202 | accepted unless terminal; begins recovery, completes nothing, and queues a job |
| InboxProtocol.HandledAtMostOnce | apps/api/src/events/inbox.service.ts:18-67 | under every interleaving: one handler at a time, at most one completion, at most ten invocations, failure rows numbered in order with exactly the tenth quarantined |
| InboxProtocol.InvokedAgainIffOpen | apps/api/src/events/inbox.service.ts:24-36 | the handler can run again exactly when the row is free or a call that may free it is alive |
| InboxProtocol.SettledReportsDuplicates | apps/api/src/events/inbox.service.ts:33-36 | after success or quarantine every later `consume` reports a duplicate |
| InboxProtocol.CrashFreeRunsStayOpenOrSettled | apps/api/src/events/inbox.service.ts:44-66 | without crashes the row is always free, owned or settled |
| InboxProtocol.CrashStrandsTheEvent | apps/api/src/events/inbox.service.ts:37-43 | a crash in the handler leaves an event neither processed nor open |
| InboxService.Inbox.Consume | apps/api/src/events/inbox.service.ts:18-67 | one `consume` with nothing in between leaves in its rows what the protocol leaves, and touches no other key |
| OutboxProtocol.PublishingIsSafe | apps/api/src/events/outbox.service.ts:45-84 | with any publishers, crashes and replays: at most one holder and only while publishing; at most ten claims plus one for each replay; processed implies enqueued |
| OutboxProtocol.QuarantinedOnTheTenthFailure | apps/api/src/events/outbox.service.ts:61-75 | never replayed and at rest unpublished, an event is quarantined exactly when claimed ten times |
| OutboxProtocol.PublishingTerminates | apps/api/src/events/outbox.processor.ts:19-58 | until the next append or replay all publishers together claim no more often than the events have claims left |
| OutboxProtocol.EachRestIsTwiceTheLast | apps/api/src/events/outbox.service.ts:61-75 | a first failure keeps an event from being claimed for two seconds, and each up to the ninth for twice as long as the one before |
| OutboxProtocol.FailureSchedule | apps/api/src/events/outbox.service.ts:45-75 | an event that failed at any times is due again exactly two seconds to 512 after the last, by the number of its claims, and after ten not at all |
| OutboxProtocol.ReplayGrants | apps/api/src/events/outbox.service.ts:61-84 | a replayed event is due at once and quarantined after exactly as many failures as it has claims unused, or one if none; so it gets all ten exactly when it was never claimed |
| OutboxProtocol.ReplayedQuarantineHasOneClaim | apps/api/src/events/outbox.service.ts:76-84 | a replayed quarantined event is quarantined again by its first failure |
| OutboxService.Outbox.Append | apps/api/src/events/outbox.service.ts:26-44 | inserts a pending row unless the event id exists |
| OutboxService.Outbox.Claim | apps/api/src/events/outbox.service.ts:45-54 | takes an oldest due event, marks it publishing and counts the attempt; nothing when none is due |
| OutboxService.Outbox.Confirm | apps/api/src/events/outbox.service.ts:55-60 | processed only from publishing |
| OutboxService.Outbox.Fail | apps/api/src/events/outbox.service.ts:61-75 | failed with a delay, or quarantined from the tenth attempt on |
| OutboxService.Outbox.ReplayEvent | apps/api/src/events/outbox.service.ts:76-84 | pending again from any status but pending and publishing, with its attempts kept |
| OutboxService.Outbox.Publish | apps/api/src/events/outbox.processor.ts:24-50 | a claimed event ends processed and queued, or failed |
| OutboxService.Outbox.PublishNext | apps/api/src/events/outbox.processor.ts:22-55 | nothing when nothing is due, or one due event claimed and settled |
| OutboxService.Outbox.Process | apps/api/src/events/outbox.processor.ts:19-58 | a pass claims the oldest due events, a hundred or all, each once; what it can enqueue ends processed and queued, the rest failed, all else untouched |
| Redactor.RedactedIsClean | apps/api/src/events/event-redactor.service.ts:6-21 | what redaction yields is bounded in depth, width and text length and blanks every sensitive key |
| Redactor.SensitiveIff | apps/api/src/events/event-redactor.service.ts:2-3 | a key is sensitive exactly when it holds one of the words in any mixture of cases |
| Redactor.RedactionKeeps | apps/api/src/events/event-redactor.service.ts:6-21 | what stands within eight levels, behind no sensitive key and among the first hundred items, is kept: texts cut after ten thousand characters, arrays after a hundred items, objects with their keys in order, anything else as it is |
| Redactor.RedactionBlanks | apps/api/src/events/event-redactor.service.ts:6-21 | the value of a sensitive key, what lies a level deeper and the items after the hundredth are replaced or dropped |
| Redactor.UnchangedIffClean | apps/api/src/events/event-redactor.service.ts:6-21 | redaction leaves a value alone exactly when it is clean |
| Redactor.RedactionIsIdempotent | apps/api/src/events/event-redactor.service.ts:6-21 | redacting again changes nothing |
| ActivityProjection.SameRecordIff | apps/api/src/modules/activities/activity-projection.service.ts:52-83 | live consumption and rebuild insert the same record exactly when the event is not projected, or its causation id is not empty and no date is read |
| ActivityStore.SecondRebuildProjectsNothing | apps/api/src/modules/activities/activity.service.ts:53-71 | a second rebuild over the same events inserts nothing |
| ActivityStore.RebuildCovers | apps/api/src/modules/activities/activity.service.ts:53-71 | after a rebuild every retained event of a projected type has its activity |
| ActivityStore.OneActivityPerEvent | apps/api/src/modules/activities/repositories/activity.repository.ts:8-16 | across deliveries, redeliveries and rebuild steps: at most one activity for each workspace and event, present exactly when some path reached a projected event, and its projection |
| ActivityStore.PathsAreConfluent | apps/api/src/modules/activities/activity-projection.service.ts:52-83 | where the two paths agree, what is stored does not depend on the path taken |
| ActivityStore.Activities.Project | apps/api/src/modules/activities/repositories/activity.repository.ts:8-16 | inserts once under the unique key and reports whether it did |
| ActivityStore.Activities.Rebuild | apps/api/src/modules/activities/activity.service.ts:53-71 | counts exactly what it inserted, covers the retained events, and inserts nothing when they are covered |
| Timeline.TimelineShowsExactly | apps/api/src/modules/activities/activity.service.ts:17-34 | following the timeline to its end shows a caller exactly the activities of the workspace, the entity asked for, the visibilities allowed and the permissions held |
| Timeline.TimelineRespectsPermissions | apps/api/src/modules/activities/activity-projection.service.ts:94-115 | after any run of publishing, delivery and rebuild: what a caller is shown comes from an event of the caller's workspace, from an internal one only with the administrator's permission, else from an aggregate the caller may read, and holds no sensitive value |
| Timeline.ProjectionGuards | apps/api/src/modules/activities/activity-projection.service.ts:52-82 | by either path an activity is internal exactly when its event is, is guarded and kept for one year or seven accordingly, and its data are clean |
| ActivityContents.ProjectionTells | apps/api/src/modules/activities/activity-projection.service.ts:52-143 | an activity takes over its event's ids, aggregate, time, correlation and causation; its domain is what precedes the first dot, its actor the text under `actorId`, its related entities those named by the first twenty short texts under `Id` keys, and its data the payload or, of a change, just its field, from and to |
| ActivityContents.TimelineShowsEventIff | apps/api/src/modules/activities/activity-projection.service.ts:52-143 | over all runs an event's activity is shown to just those callers of its workspace who hold its permission, ask for no other visibility, and ask for no entity, its aggregate or one its payload names, once some path reached it |
| ActivityContents.RowReadable | apps/api/src/modules/activities/activity.service.ts:17-34 | over all runs every stored activity tells its event as one of the paths carried it, and is shown exactly by those rules |
| ActivityContents.EventsAreAppended | apps/api/src/events/outbox.service.ts:26-44 | every retained event is one that was appended, with only payload and metadata redacted |
| ActivityContents.NamedEventsAreOfTheirType | apps/api/src/modules/activities/activity-projection.service.ts:27-45 | an event whose name is that of a type, with a dot, is of the type |
| ActivityContents.OtherEventsAreToldByTheirEnd | apps/api/src/modules/activities/activity-projection.service.ts:85-93 | notes, fields and owners of any subject are told by the end of the event's name |
| ActivityContents.PermissionsAreNamed | apps/api/src/modules/activities/activity-projection.service.ts:99-115 | reading an aggregate takes the permission named after it, or that of the inbox |
| Keyset.SortIsInOrder | apps/api/src/modules/crm/crm.repository.ts:50-57 | the listing is sorted by sort field and id and holds each document once |
| Keyset.PageAt | apps/api/src/modules/crm/crm.repository.ts:35-49 | the page after a position is the next slice of the listing, as far as the type bracket goes |
| Keyset.PagesReassembleTheListing | apps/api/src/modules/crm/crm.repository.ts:31-72 | following the cursors as they are made ends; the pages make up the listing exactly when it fits one page or the first page ends in the type bracket the listing ends in, and otherwise a prefix of it |
| Keyset.CarriedWalk | apps/api/src/modules/crm/crm.repository.ts:60-72 | a client whose cursors travel as text walks the same pages, and is refused exactly when a page with more to come ends with a document whose cursor does not come back |
| Keyset.StableDocumentReturnedOnce | apps/api/src/modules/search/search.service.ts:54-131 | while others come, go and move, an unchanged document is never returned twice; a walk that ends returned it once exactly when the first page did not end before it in another type bracket |
| Keyset.OneBracketLosesNothing | apps/api/src/modules/search/search.service.ts:54-131 | in a collection of one type bracket a walk that ends returned every unchanged document exactly once |
| KeysetRepositories.Collections.CrmPage | apps/api/src/modules/crm/crm.repository.ts:16-73 | a page is the keyset page of the live records of the workspace that match what is asked for, or the numbered page without a cursor; its records stand in the order of their values: nothing and null, numbers, texts by the collation, dates, and equal ones by id; the total ignores the cursor |
| KeysetRepositories.Collections.Clauses | apps/api/src/modules/crm/crm.repository.ts:21-30 | the query built member by member asks just for the records described |
| KeysetRepositories.StretchListsInOrder | apps/api/src/modules/crm/crm.repository.ts:50-57 | every stretch of what a query finds is of matching records in the order of their values, in the direction asked for |
| KeysetRepositories.FoundAfterCursor | apps/api/src/modules/crm/crm.repository.ts:36-47 | what a cursor made of a record finds comes after the record in that order |
| KeysetRepositories.Collections.SearchPage | apps/api/src/modules/search/search.service.ts:99-132 | a page is the keyset page of the matching documents, in the order of their values |
| KeysetRepositories.Collections.ActivityPage | apps/api/src/modules/activities/repositories/activity.repository.ts:17-76 | a page is the keyset page of the activities the caller may read, the newest first by their own times |
| KeysetRepositories.CrmWalkIsCompleteIff | apps/api/src/modules/crm/crm.repository.ts:31-73 | a client that follows a CRM listing through encoded cursors gets all of it exactly when no page with more to come ends with a record without a sort value and the listing fits one page or the first page ends in its last type bracket |
| KeysetRepositories.SearchWalkIsNeverRefused | apps/api/src/modules/search/search.service.ts:54-132 | encoded and decoded search cursors never change or stop the walk |
| KeysetRepositories.TimelineIsComplete | apps/api/src/modules/activities/repositories/activity.repository.ts:47-82 | following the timeline's encoded cursor returns exactly the readable activities, the newest first by their own times, each once |
| KeysetCursors.CrmCursorRoundTrip | apps/api/src/modules/crm/crm.repository.ts:172-188 | a cursor puts its value to the query exactly when there is one and it is a date just when the field's name ends in `At` or the schema casts it to one, among dates and texts |
| KeysetCursors.SearchCursorRoundTrip | apps/api/src/modules/search/search.service.ts:152-181 | a cursor decodes to its value and id under its own field and under no other |
| KeysetCursors.ActivityCursorRoundTrip | apps/api/src/modules/activities/repositories/activity.repository.ts:69-82 | a cursor splits back into its date and id |
| FilterCompiler.CompileFilter | apps/api/src/modules/search/filter-compiler.service.ts:27-33 | the compiler with its shared counter computes the compilation function, errors included |
| FilterCompiler.Compilation.Node | apps/api/src/modules/search/filter-compiler.service.ts:34-57 | a node compiles as the function says and leaves the counter at the function's count |
| FilterCompiler.Compilation.ConditionNode | apps/api/src/modules/search/filter-compiler.service.ts:58-66 | counts before it checks anything else, and refuses the fifty-first condition |
| FilterCompiler.CountConditions | apps/api/src/modules/search/search.service.ts:185-197 | the metrics' loop counts what the count function says |
| FilterTheorems.FilterCompilesIff | apps/api/src/modules/search/filter-compiler.service.ts:27-157 | compilation succeeds exactly when the workspace id is one and the tree is valid, at most five groups deep, with at most fifty conditions |
| FilterTheorems.NodeCompiles | apps/api/src/modules/search/filter-compiler.service.ts:34-66 | the same for any node, depth and count so far; the threaded counter grows by the number of conditions |
| FilterTheorems.CountsAgree | apps/api/src/modules/search/search.service.ts:185-197 | the metrics' count equals the number of conditions compiled |
| FilterTheorems.CompiledFilterMeans | apps/api/src/modules/search/filter-compiler.service.ts:27-132 | a compiled filter with plain relative dates finds, among documents with arrays in array fields only, exactly the caller's documents of which the source tree holds |
| FilterWords.EqualityFinds | apps/api/src/modules/search/filter-compiler.service.ts:124-125 | `eq` finds just the caller's documents that hold the value the JSON stands for, of any type, `neq` the others |
| FilterWords.ComparisonFinds | apps/api/src/modules/search/filter-compiler.service.ts:126-127 | `gt` and `lt` find just those that hold a greater or lesser number or date |
| FilterWords.NumbersCompare | apps/api/src/modules/search/filter-compiler.service.ts:126-127 | on a number field `gt` n finds just the documents with a number greater than n, `lt` those with a lesser |
| FilterWords.BetweenFinds | apps/api/src/modules/search/filter-compiler.service.ts:109-113 | `between` finds just those that hold a number or date from the first bound to the second, both included |
| FilterWords.ListFinds | apps/api/src/modules/search/filter-compiler.service.ts:114-122 | `in` and `notIn` take one to a hundred values and find just those that hold one of them, or none |
| FilterWords.PatternFinds | apps/api/src/modules/search/filter-compiler.service.ts:128-131 | `contains` and `startsWith` find just those with a text that has the word in it, or at its beginning, ignoring case |
| FilterWords.ExistenceFinds | apps/api/src/modules/search/filter-compiler.service.ts:78-81 | `exists` finds just those that have the field, or lack it |
| FilterWords.RelativeDateFinds | apps/api/src/modules/search/filter-compiler.service.ts:82-108 | `relativeDate` finds just those with a date in the stretch of 1 to 365 days, weeks of seven or months of thirty before or after now |
| FilterWords.OtherWordsAreRefused | apps/api/src/modules/search/filter-compiler.service.ts:72-73 | no other word is an operator |
| FilterWords.UnsafeKeysAreRefused | apps/api/src/modules/search/filter-compiler.service.ts:163-167 | a key that begins with a dollar sign, holds a zero character or names a prototype is refused as an injection, in nodes and in relative dates |
| FilterWords.CompiledNodeShape | apps/api/src/modules/search/filter-compiler.service.ts:34-66 | what compiles is a condition of the known members or a group with children, and no deeper than five |
| FilterTheorems.RelativeDateMeansItsWordsIffPlain | apps/api/src/modules/search/filter-compiler.service.ts:82-108 | a relative date compiles to the stretch its words name exactly when they are text, or read as the fallbacks |
| FilterTheorems.EscapedIsLiteral | apps/api/src/modules/search/filter-compiler.service.ts:128-131 | an escaped text is a pattern for just that text |
| FilterTheorems.PatternsAreLiteral | apps/api/src/modules/search/filter-compiler.service.ts:128-131 | `contains` and `startsWith` match exactly the texts that contain or start with the operand, ignoring case |
| FilterTheorems.WorkspaceIsNoField | apps/api/src/modules/search/search.schemas.ts:15-187 | no entity lists `workspaceId`, so no filter can overwrite the workspace clause |
| StableValue.StableIsPlainCanon | apps/api/src/modules/agents/tools/tool-security.ts:8-12 | printing with sorted keys is putting the tree in canonical order and printing it as it stands |
| StableValueReading.PlainIsInjective | apps/api/src/modules/agents/tools/tool-security.ts:8-12 | printing without reordering is injective |
| StableValueReading.EscapeIsRead | apps/api/src/modules/agents/tools/tool-security.ts:8-12 | an escaped text read by section 7 of RFC 8259 is the text |
| StableValueReading.PrintsJsonWords | apps/api/src/modules/agents/tools/tool-security.ts:8-12 | null, the truth values and the empty array and object print as section 3 of RFC 8259 has them |
| StableValueTheorems.PrintsSameIffSame | apps/api/src/modules/agents/tools/tool-security.ts:8-12 | two trees print the same exactly when equal up to key order, given that the collation tells the keys of each object apart |
| StableValueTheorems.KeyOrderIsLostIffNoTies | apps/api/src/modules/agents/tools/tool-security.ts:10-10 | all reorderings of a tree print the same exactly when no object has two keys that compare as equal |
| StableValueTheorems.PrintTells | apps/api/src/modules/agents/tools/tool-security.ts:8-12 | trees that print the same are equal up to key order, whatever the collation |
| StableValueTheorems.KeysAgreeIffSameCall | apps/api/src/modules/agents/tools/tool-security.ts:13-15 | the hashed text is equal only for the same workspace, run, tool, version and arguments up to key order |
| StableValueTheorems.ColonsWouldCollide | apps/api/src/modules/agents/tools/tool-security.ts:14-14 | were ids free to hold colons, two runs could share a key |
| GuardProtocol.WorkIsBounded | apps/worker/src/jobs/execution-guard.ts:12-38 | while a workspace's counter does not expire it equals the executions between increment and decrement, and at most `workspaceLimit` works run at once |
| GuardProtocol.WorkIsExclusive | apps/worker/src/jobs/execution-guard.ts:20-36 | while a job's lock does not expire, no two executions work on it at once |
| GuardProtocol.LocksAreReleasedByTheirHolders | apps/worker/src/redis/distributed-lock.ts:13-20 | whatever expires, a lock is lost only to its expiry or to the release of the execution it belongs to |
| GuardProtocol.ExpiredCounterIsExactIff | apps/worker/src/jobs/execution-guard.ts:22-24 | an expired counter is exact again only when nobody is counted |
| GuardProtocol.NineStepsFinish | apps/worker/src/jobs/execution-guard.ts:12-38 | an execution on its own ends in nine steps with locks and counter as it found them, and the job done only if its work succeeded |
| GuardProtocol.DoneJobIsWorkedOnAgainIffLate | apps/worker/src/jobs/execution-guard.ts:12-38 | while its done key lasts, a done job can be worked on anew exactly when some execution of it stands past the check of that key, short of work and not over the limit |
| GuardProtocol.WorkCanRunTwice | apps/worker/src/jobs/execution-guard.ts:19-20 | a run from the start, at limit one, in which that happens |
| GuardService.ExecutionGuard.Execute | apps/worker/src/jobs/execution-guard.ts:12-38 | one call leaves the keys that nine steps of the protocol leave, and reports duplicate, limit, failure or success accordingly |
| GuardService.ExecutionGuard.WorkWithinLimit | apps/worker/src/jobs/execution-guard.ts:22-37 | the counter goes up and comes down again whatever happens; work runs only within the limit, and marks the job done only if it succeeds |
| GuardService.DistributedLock.Acquire | apps/worker/src/redis/distributed-lock.ts:8-12 | takes the lock if it is free |
| GuardService.DistributedLock.Release | apps/worker/src/redis/distributed-lock.ts:13-20 | deletes the lock only if it still holds the caller's token |
| RetryBudget.Budget.TryConsume | apps/api/src/resilience/resilience.ts:14-21 | each call is decided by the level after its refill |
| RetryBudget.AcceptedIffEveryWindowAllows | apps/api/src/resilience/resilience.ts:14-21 | a call is accepted exactly when, with it, no window that ends with it holds more successes than a full bucket and what came back meanwhile |
| RetryBudget.LevelIsBounded | apps/api/src/resilience/resilience.ts:14-21 | tokens stay between nothing and the capacity |
| RetryBudget.PassedBoundsSuccesses | apps/api/src/resilience/resilience.ts:14-21 | on any clock, the successes between two calls number at most the capacity and the refill of all the forward steps between them |
| RetryBudget.PassedIsClockIffForward | apps/api/src/resilience/resilience.ts:15-17 | those forward steps add up to the time the clock shows exactly when it was not set back in between |
| RetryBudget.WindowsAreBounded | apps/api/src/resilience/resilience.ts:14-21 | on a clock not set back between two calls, the successes between them number at most the capacity and the refill of the time between them |
| RetryBudget.NoPolicyOverspendsIffForward | apps/api/src/resilience/resilience.ts:14-21 | no policy lets through more, from the first call to another, than a full bucket and the refill of the time the clock shows, exactly when the clock was never set back between them |
| RetryBudget.ClockSetBackOverspends | apps/api/src/resilience/resilience.ts:15-17 | such a history: a clock that goes up, back and up again |
| SlidingLog.ToolRateLimiter.Consume | apps/api/src/modules/agents/tools/tool-security.ts:37-44 | filters the key's log, judges, and touches no other key |
| SlidingLog.PublicApiClient.Request | apps/widget/src/lib/api.ts:11-15 | shifts the queue, judges, and pushes on acceptance |
| SlidingLog.BothLimitersFollowTheRule | apps/widget/src/lib/api.ts:11-15 | on a clock that never goes back both make the same decisions, and accept exactly when fewer than `limit` accepted calls lie in the window |
| SlidingLog.NoWindowHoldsMore | apps/api/src/modules/agents/tools/tool-security.ts:37-44 | no window, wherever it ends, holds more than `limit` accepted calls |
| SlidingLog.LimitersAgreeIffInOrder | apps/widget/src/lib/api.ts:11-15 | on one log, filter and shift decide alike at every time and under every limit exactly when the log is in order |
| SlidingLog.ClockSetBackParts | apps/widget/src/lib/api.ts:13-13 | a history on which the queue refuses what the filter accepts |
| Throttler.ThrottlerStorage.Increment | apps/api/src/security/redis-throttler.storage.ts:6-25 | one call of the script, with what it answers |
| Throttler.LifetimesAreBounded | apps/api/src/security/redis-throttler.storage.ts:17-24 | at most `limit` calls pass in a counter's lifetime, each within `ttl` of its first hit, and lifetimes do not overlap |
| Throttler.FewerThanTwiceTheLimit | apps/api/src/security/redis-throttler.storage.ts:6-25 | fewer than twice `limit` calls pass in any interval of length `ttl` |
| Throttler.TheBoundIsReached | apps/api/src/security/redis-throttler.storage.ts:6-25 | for every limit and every `ttl` a burst at the end of one lifetime and the start of the next passes one call fewer than twice the limit |
| Throttler.NonePassesWhileBlocked | apps/api/src/security/redis-throttler.storage.ts:12-24 | from a call over the limit until its block runs out, no call passes and nothing changes |
| Throttler.BlockRunsOut | apps/api/src/security/redis-throttler.storage.ts:12-24 | a block lasts exactly its duration, or `ttl` where none is set; then a call passes exactly when the counter has run out too |
| AiMemory.BestIsFirst | apps/api/src/modules/agents/memory/memory-resolution.ts:4-4 | the first of the sorted memories is one of them and no less than any |
| AiMemory.SupersedesIffAtLeastAll | apps/api/src/modules/agents/memory/memory-resolution.ts:2-8 | a candidate supersedes exactly when it is lexicographically no less than every existing memory |
| AiMemory.RememberKeeps | apps/api/src/modules/agents/repositories/ai-memory.repository.ts:14-28 | remembering keeps one live record for each fact, its dominance, and mutual contradictions |
| AiMemory.RepetitionRaises | apps/api/src/modules/agents/repositories/ai-memory.repository.ts:18-22 | content a live record holds already adds none: that record gets the greater confidence and nothing else changes |
| AiMemory.OneActivePerFact | apps/api/src/modules/agents/repositories/ai-memory.repository.ts:14-28 | over all histories of calls one after another a fact has at most one active unexpired record; while nothing expires it has exactly one, no less than any stored |
| AiMemoryCalls.LoneCallRemembers | apps/api/src/modules/agents/repositories/ai-memory.repository.ts:14-28 | a read, a save and an update with nothing in between are one call of `remember` |
| AiMemoryCalls.OneActiveThroughoutIffNoneCrowds | apps/api/src/modules/agents/repositories/ai-memory.repository.ts:14-37 | over all runs of interleaved reads, saves, updates, crashes and deletions every fact has at most one active unexpired record at every moment exactly when no active record is ever saved while another of its fact is live |
| AiMemoryCalls.OneToStayThroughoutIffNoneLost | apps/api/src/modules/agents/repositories/ai-memory.repository.ts:14-37 | over all those runs, of any two live records of a fact one is about to be superseded throughout, exactly when no call saves an active record beside a live one that it has not read and nobody will supersede, and none crashes between its writes with such a pair left behind |
| AiMemoryCalls.ToStayIffSettledHasOne | apps/api/src/modules/agents/repositories/ai-memory.repository.ts:26-26 | that is so exactly when the updates still to come, in whatever order, leave at most one |
| AiMemoryCalls.OneActiveAtRest | apps/api/src/modules/agents/repositories/ai-memory.repository.ts:17-26 | a run in which nothing is overlooked or abandoned has at most one live record of each fact whenever no call is between its writes |
| AiMemoryCalls.StepKeepsOneIff | apps/api/src/modules/agents/repositories/ai-memory.repository.ts:17-26 | from any state with one live record of each fact a step leaves one exactly when it saves no active record while another is live |
| AiMemoryCalls.StepKeepsToStayIff | apps/api/src/modules/agents/repositories/ai-memory.repository.ts:17-26 | from any state with one record to stay a step leaves one exactly when it neither overlooks nor abandons one |
| AiMemoryCalls.TwoFirstCallsBothWin | apps/api/src/modules/agents/repositories/ai-memory.repository.ts:14-28 | any two first calls for one fact have a run that leaves both records live |
| AiMemoryCalls.CrashBetweenWritesLeavesTwo | apps/api/src/modules/agents/repositories/ai-memory.repository.ts:25-26 | every call that replaces a live record makes two live between its writes, and leaves both if it crashes there |
| AiMemory.ExpiryLetsWeakerIn | apps/api/src/modules/agents/repositories/ai-memory.repository.ts:17-24 | once the active record expires a weaker one becomes active beside a stronger one |
| AiMemory.AiMemoryRepository.Remember | apps/api/src/modules/agents/repositories/ai-memory.repository.ts:14-28 | one call leaves the records the function says and yields the record kept and those it contradicts |
| CsvLine.Csv | apps/worker/src/processors/contact-import.processor.ts:10-14 | the loop computes the parsing function |
| CsvLine.ParseUndoesPrintIff | apps/worker/src/processors/contact-import.processor.ts:10-14 | parsing a line printed by section 2 of RFC 4180 gives back its fields exactly when there are some and those left bare hold neither quote nor comma |

## Left out

- Saga liveness beyond the jobs of `SagaJobs`, the order of commands after an operator re-enters forward steps, audit
  history, alerts, error texts and external references.
- The queue's own behaviour: it is taken as at-least-once delivery, with one waiting job for each job id.
- Deletion by Mongo TTL indexes, and failures of the stores other than those a step names.
- Clocks: every reading is a parameter; one operation reads its clock once.
- Identifiers, hashing, date formats, case folding and locale comparison: parameters, injective functions or a given
  order. A string is a sequence of characters, so lone surrogates and lengths in code units beyond the Basic
  Multilingual Plane are not modelled.
- Web pages, controllers, schemas, AI providers, file import beyond one CSV line, the circuit breaker, caches and
  batch writes: they would add plumbing or easy members.
- The time an inbox failure row proposes for the next attempt, which nothing reads.
- InboxService.Inbox.Consume: is proved for one call on its own; the interleaved calls are those of the protocol.
- SagaService.Service.Advance: likewise one call on its own; a conflict of versions arises in the interleaved machine
  only.
- SagaService.Sagas.Start: is one call on its own; of two that interleave the unique index refuses the second, with an
  error the source does not handle.
- SagaJobs.JobUnlessRecoveryBegins: is stated of calls that run to their end; one that crashes before it enqueues leaves
  no job.
- SagaJobs.NothingChangesIff: speaks of jobs run one at a time, signals, and no cancellation or operator.
- SagaAttempts.StartsAreBounded: is stated of automatic runs; an operator's resume may re-enter a step at will.
- Keyset.StableDocumentReturnedOnce: says nothing of documents that change or are not there for every request.
- KeysetRepositories.CrmWalkIsCompleteIff: is stated of collections that hold dates only in fields named or declared
  as dates, and texts only in others, as the schemas do; object ids are numbers that cursors carry unchanged.
- KeysetRepositories.Collections.CrmPage: how the database's text index matches, and the filters that only some of the
  resources add, are parameters; such a filter is taken to name no status, owner or tags of its own.
- FilterTheorems.CompiledFilterMeans: is stated of trees whose relative dates are plain and of documents that hold
  arrays only in array fields; the order in which errors are found is in the compilation function only.
- FilterCompiler.CompileFilter: object members inherited from a prototype other than field names are not modelled.
- ActivityProjection.SameRecordIff: an actor id that is no object id makes the insert fail on both paths alike, which
  is not modelled; nor are event types and aggregate types that name members every object inherits.
- Timeline.TimelineShowsExactly: the refusal of a query with an entity type but no entity id, or the reverse, and the
  shape of the answer's items are not modelled.
- GuardProtocol.WorkIsBounded: a crashed execution is one that never takes another step and stays counted.
- Throttler.LifetimesAreBounded: is stated of one caller under one policy.
- AiMemory.OneActivePerFact: is stated of calls one after another, without deletions; interleaved calls, crashes and
  deletions are in `AiMemoryCalls`.
- StableValueTheorems.KeysAgreeIffSameCall: members whose value is undefined, which the printer writes as such, are
  not JSON and not modelled.
