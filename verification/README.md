# U2OS: a verified model

This project models the parts of U2OS that must not lose, repeat or reorder work, together with its date
arithmetic, its calendar grid and its Markdown parser, and proves what they promise. Everything is plain Dafny;
`dafny verify dfyconfig.toml` checks all of it.

**Action queue.** `ActionQueue` holds the stored record of one action (audit row, queue row, attempts) and every
SQL statement as a function on it. `ActionWorker` holds the error classifier, the decision the worker takes
about a leased action, and `Stretch`, the list of stored states its synchronous stretch passes through.
`ActionRuns` turns this into a transition system: approvals, rejections, cancellations, stretches cut short
after any statement, lease renewals, external calls that come back late or never, settlements and crashes, in
any order, with policy and account answers chosen afresh at every step and with clocks that may disagree.
`ActionGuarantees` proves what holds in every run, `ActionRetries` how often and when an action is tried, and
`ActionDecisions` when a call is made and what each step and each refusal leaves stored; `ActionWitnesses` gives
the runs that show where a promise stops. `ActionQueueStore` is the imperative form: the store, worker and
approval manager as classes whose methods are proved to perform exactly those functions, statement by statement;
`ActionHome` drives them and shows that every stored record is where a run of the model has arrived.

**Event bus.** `EventLog` is the append-only log and the selection a subscription is owed. `EventBus` is the
step system of publishers and one subscriber, with the subscriber's position inside `recv_timeout` and the
publisher's position between a refused send and the store of the lag flag. `EventGuarantees` states exactly when
delivery is gap-free, complete and resumable; `EventWitnesses` gives the runs in which it is not. `Subscription`
is the imperative form, with an arbitrary environment running between any two of the subscriber's atomic
actions.

**Dates and calendar.** `CivilDate` and `DateText` are the day-number arithmetic and the strict text form.
`Calendar` and `CalendarEvents` are the month grid, view ranges, moves and event placement on top of it.

**Markdown.** `MarkdownLists` is the stack-based list nester, `MarkdownTables` the row splitter and
`MarkdownBlocks` the block collector, for any line tests; `MarkdownGrammar` has the browser's own, and
`MarkdownLines` says of every test which lines it accepts and what it takes from them. Each method is proved
against a definition that uses no stack and no cursor, and that definition is proved to admit one result only.

**Applications and streams.** `Applications` interleaves runs of `applyToJob` over shared records and locks;
`ApplicationWitnesses` shows what overlapping runs break and `ApplicationVault` is the imperative run. `Framing`
and `StreamClients` cut incremental input into frames, dispatch it and suppress duplicates, and `StreamMeaning`
says what they take from it; `JsText` has the string operations they share and `Common` the types.

## Findings

- The bus can lose an event for good. A refused `try_send` and the store of the lag flag are two atomic
  operations (`majordomo/src/events.rs:397-400`) and the subscriber takes no lock between them: it can take what
  is in the channel, swap the flag too early, and then receive the next event. `EventWitnesses.RaceLosesEvent`
  is the run. `EventGuarantees.GapFree` says exactly when there is no gap: when no receive takes an event
  announced after a drop that is still to be replayed, and so whenever every swap is taken outside that window.
- For the same reason `recv_timeout` can return `None` although an announced event has not been handed out
  (`EventWitnesses.TimesOutTooEarly`); `EventGuarantees.Complete` has the exact condition, and a drop that is
  outstanding is always flagged or about to be.
- `Subscription::cursor` is documented as the number of the last event handed out, but a refill moves it onto
  entries that were filtered out (`EventWitnesses.CursorPastFiltered`). It is that number exactly when it has
  not moved or its log entry matches (`EventGuarantees.CursorIsLastHanded`). Resuming from it loses and repeats
  nothing beyond what was overtaken (`EventGuarantees.ResumeContinues`).
- Lease expiry has no cap of its own. With one fixed worker, a clock in order and a single call, any attempt
  count is reached, because completing an action already executed opens an attempt that a crash leaves open
  (`ActionWitnesses.AttemptsUncapped`). Calls are bounded: by the attempts allowed and the leases that fit into
  the age limit (`ActionRetries.BoundedCalls`).
- `executed` can be overwritten by `failed` in two ways: a late failure of an earlier call, and an error while
  the completion is published, after which the executor writes `failed` over its own `executed`
  (`ActionWitnesses.LateFailureOverwrites`, `ActionWitnesses.UnpublishedOverwrites`).
  `ActionGuarantees.OverwritesExactly` names the steps that do it; it never happens exactly when the tool lacks
  idempotency support and completions can be published (`ActionWitnesses.StaysExecutedIff`).
- A pending action does not always have no row or a `failed` row: a process that dies between the two writes of
  a stop leaves it leased (`ActionWitnesses.PendingWhileLeased`). Such a cut is the only way
  (`ActionGuarantees.PendingTidyExactly`).
- An approval does not always leave a row that can be run. A process that dies, or an error raised, between the
  decision and the queue write loses the owner's approval for good: nothing will ever run the action, and it
  cannot be approved again (`ActionWitnesses.ApprovalLost`, `ActionGuarantees.CutApprovalIsLost`).
  `ActionGuarantees.ApprovalLeavesRunnableRow` says exactly when the row is runnable.
- `applyToJob` checks the record and the daily limit before it takes the lock. Overlapping runs can submit one
  job twice (`ApplicationWitnesses.OverlapSubmitsTwice`), and a job whose record an overlapping run has lowered
  or rewritten is submitted again by a later run (`ApplicationWitnesses.HiddenClickRepeats`).
  `Applications.SubmittedOnceExactly` says, over all runs, exactly when no job is submitted twice.
- Overlapping runs pass the daily limit by at most the number of other submitting runs open at the time
  (`Applications.OverlapLimit`), and by that much for every limit (`ApplicationWitnesses.LimitReached`).
- `normalize` is not idempotent for every accepted text: an offset can move the instant before 1970 or past 9999
  (`DateText.OffsetLeavesRange`; the exact condition is `DateText.NormalizeIdempotent`).
- Moving a calendar view by a month and back returns to the anchor exactly when the anchor's day exists in the
  month visited (`Calendar.ShiftBack`).
## Model

| member | source | states |
|---|---|---|
| `ActionGuarantees.SoundRun` | server/agent/action-queue-worker.js:43-164 | every run from a proposal keeps the whole invariant: fenced leases, owner authority, calls tied to attempts, accounted retries |
| `ActionGuarantees.EachActionRunsAlone` | server/agent/action-queue-store.js:24-320 | in a queue of many actions each goes through a run of its own events only, so every per-action guarantee holds for all of them at once |
| `ActionGuarantees.AtMostOnce` | server/agent/action-queue-worker.js:128-163 | without idempotency support, any call followed by another was recorded as a failure that is safe to retry: across crashes, expiries, policy changes and late workers |
| `ActionGuarantees.NoCallWhileUncertain` | server/agent/action-queue-worker.js:128-143 | at the moment of a further call every earlier one is already recorded as safe to retry |
| `ActionGuarantees.LeaseFencing` | server/agent/action-queue-store.js:125-223 | attempts are numbered 1 to `attempt_count`, at most one is open, and an executing row has exactly one, the newest, held by the row's lease owner |
| `ActionGuarantees.ClosedAttemptIsFinal` | server/agent/action-queue-store.js:153-160 | an attempt once closed, by expiry or settlement, is never written again in any continuation |
| `ActionGuarantees.DisplacedCallCannotSettle` | server/agent/action-queue-store.js:292-320 | the call of a displaced attempt changes nothing when it settles, however late |
| `ActionGuarantees.OnlyApprovalApproves` | server/agent/approval-manager.js:121 | only an approval that goes through sets the approval time |
| `ActionGuarantees.ApprovalHappened` | server/agent/approval-manager.js:81-149 | an approved action has an approving step of the owner somewhere earlier in its run |
| `ActionGuarantees.EveryCallAuthorised` | server/agent/action-queue-worker.js:87-126 | every call ever made had an unblocking policy answer, the proposal's arguments, no rejection, a fresh action, and an approval if one was required |
| `ActionGuarantees.CallAfterApproval` | server/agent/action-queue-worker.js:107-110 | the step that makes a call consulted the policy itself, on an action neither rejected nor executed, after an approving step where required |
| `ActionDecisions.CallsExactly` | server/agent/action-queue-worker.js:43-143 | in every reachable state a step adds a call exactly when an uncut stretch finds a row it may take, none of thirteen reasons against the call (rejection, execution, cancelled run, deadline, goal, policy, package, age, approval, account, payload, uncertain outcome, unresolved tool), and begins while its lease is good |
| `ActionDecisions.CallLeaves` | server/agent/action-queue-worker.js:136-149 | what a call leaves: a new open attempt numbered next, an executing row under the worker's lease, the proposal's arguments |
| `ActionDecisions.RefusalLeaves` | server/agent/action-queue-worker.js:43-134 | the first reason that applies decides the action status, row status and error class a stretch leaves, with no call |
| `ActionDecisions.CompletionLeaves` | server/agent/action-queue-worker.js:49-54 | an executed action's row is completed under a completed attempt, without a call |
| `ActionDecisions.NothingTaken` | server/agent/action-queue-store.js:163-184 | a row that is not due is left alone |
| `ActionDecisions.ClassedExactly` | server/agent/action-error-classifier.js:7-15 | which codes, in either case, and which statuses need authentication, which are retryable, and that all else is final |
| `ActionDecisions.DeclaredClassWins` | server/agent/action-error-classifier.js:8-9 | a declared class goes before all else, then the owner's attention |
| `ActionDecisions.EnqueueLeaves` | server/agent/action-queue-store.js:24-50 | an approved action without a row gets a fresh one, and nothing else changes |
| `ActionDecisions.OwnerLeaves` | server/agent/approval-manager.js:81-149 | what approving and rejecting write, on a pending action and only there; blocked or without an account it is blocked |
| `ActionDecisions.ApprovalQueues` | server/agent/approval-manager.js:131-147 | the row after an approval: fresh, queued again from a stop, or as it was |
| `ActionDecisions.CancelLeaves` | server/agent/action-queue-store.js:62-74 | cancelling writes both rows exactly over a waiting row of an action not executed |
| `ActionDecisions.RenewLeaves` | server/agent/action-queue-store.js:186-197 | renewing moves the expiry of a lease held, leased or executing |
| `ActionDecisions.ReturnLeaves` | server/agent/action-executor.js:16-55 | a returning call writes `executed` or `failed` and nothing else |
| `ActionDecisions.PublishLeaves` | server/agent/action-executor.js:16-55 | an error while the completion is published turns `executed` into `failed` |
| `ActionDecisions.CrashLeaves` | server/agent/action-queue-worker.js:136-190 | a worker that dies changes nothing stored and loses its unsettled calls |
| `ActionDecisions.SettleLeaves` | server/agent/action-queue-store.js:229-320 | a settlement completes, waits 1, 2, 4 or 8 seconds, gives up after the fifth attempt, or stops, by outcome, class and attempt number |
| `ActionDecisions.SettleRefused` | server/agent/action-queue-store.js:292-312 | a call whose attempt is no longer the open one settles nothing |
| `ActionGuarantees.NeverApprovedAndRejected` | server/agent/approval-manager.js:223-238 | no action is ever both approved and rejected |
| `ActionGuarantees.SingleApproval` | server/agent/approval-manager.js:82-84 | an action is approved at most once, and exactly once if it carries an approval time |
| `ActionGuarantees.RequeuedOnlyByApproval` | server/agent/approval-manager.js:131-136 | only an approval, the first, takes a row from stopped back to queued |
| `ActionGuarantees.ApprovalLeavesRunnableRow` | server/agent/approval-manager.js:121-148 | an approval leaves a row that is queued or in a worker's hands exactly when it is not cut between its two writes or found the row in a worker's hands |
| `ActionGuarantees.CutApprovalIsLost` | server/agent/approval-manager.js:121-148 | an approval cut there is lost: row and calls never change in any continuation (where there was no row, unless the action is enqueued anew) |
| `ActionGuarantees.PendingTidyNext` | server/agent/action-queue-worker.js:107-110 | a step breaks "pending means no row or a failed one that may be requeued" exactly when it is a stretch cut between the two writes of sending the action back |
| `ActionGuarantees.PendingTidyExactly` | server/agent/action-queue-worker.js:107-110 | it holds throughout a run exactly when no stretch of the run was cut there |
| `ActionGuarantees.FinishedStatuses` | server/agent/action-queue-store.js:103-122 | completed, dead-letter, uncertain and cancelled rows are finished |
| `ActionGuarantees.FinishedForever` | server/agent/action-queue-store.js:62-74 | a finished row, its attempts and its calls never change again in any continuation |
| `ActionRetries.BoundedRetries` | server/agent/action-queue-store.js:229-258 | `attempt_count` never passes five plus the attempts that leases of the run closed because they had expired |
| `ActionRetries.BoundedCalls` | server/agent/action-queue-worker.js:102-106 | with one lease time and age limit and a clock in order, the tool is called at most five times plus the leases that fit into the age limit |
| `ActionRetries.RetryDelayMonotone` | server/agent/action-queue-store.js:265-271 | the delay is positive, never shrinks, doubles up to the cap and never passes it |
| `ActionRetries.RetryWaitsOutDelay` | server/agent/action-queue-store.js:242-258 | with a clock that does not run backwards, the attempt after a retryable failure starts no sooner than the capped exponential delay |
| `ActionGuarantees.SucceedsAtMostOnce` | server/agent/action-executor.js:16-55 | without idempotency support, and unless a publisher's error itself asks for a retry, once the tool has returned there is never another call, published or not |
| `ActionGuarantees.OverwritesExactly` | server/agent/action-executor.js:16-55 | the steps that take the executed status away: a running call failing late, or a completion that cannot be published, and no others |
| `ActionGuarantees.ExecutedForever` | server/agent/action-executor.js:16-55 | without idempotency support and with completions that can be published, the status `executed` is never overwritten |
| `ActionWitnesses.AttemptsUncapped` | server/agent/action-queue-worker.js:49-54 | for every n, one fixed worker on a clock in order reaches n + 1 attempts with a single call |
| `ActionWitnesses.LateFailureOverwrites` | server/agent/action-executor.js:42-43 | a run in which a late failure turns an executed action into a failed one |
| `ActionWitnesses.UnpublishedOverwrites` | server/agent/action-executor.js:19-43 | a run in which `executed` is stored and then `failed` over it, because the completion cannot be published |
| `ActionWitnesses.StaysExecutedIff` | server/agent/action-executor.js:16-55 | executed actions stay executed in all runs if and only if the tool lacks idempotency support and the runs are those whose completions can be published |
| `ActionWitnesses.PendingWhileLeased` | server/agent/action-queue-worker.js:107-110 | a crash between the two writes of a stop leaves a pending action with a leased row |
| `ActionWitnesses.ApprovalLost` | server/agent/approval-manager.js:121-148 | a run whose approval is cut between its writes: approved, and in every continuation stopped and never called |
| `ActionRuns.FencedNext` | server/agent/action-queue-store.js:125-320 | every step, crashes included, keeps the lease fencing invariant |
| `ActionRuns.AuthorityNext` | server/agent/approval-manager.js:81-149 | every step keeps approval and rejection exclusive and a pending action unapproved with a row that may be approved |
| `ActionRuns.ExtendsNext` | server/agent/action-queue-store.js:199-320 | every step keeps the proposal, an approval once given, and all closed attempts |
| `ActionRuns.CallsRecordedNext` | server/agent/action-queue-worker.js:136-163 | every step keeps each call tied to its own attempt and worker, authorised when made |
| `ActionRuns.RetriesNext` | server/agent/action-queue-store.js:229-258 | every step keeps attempts beyond the cap accounted for by expiries |
| `ActionRuns.InvokesOnlyAfterSafeFailures` | server/agent/action-queue-worker.js:128-143 | a stretch calls a tool without idempotency support only when every earlier call was recorded as safe to retry |
| `ActionRuns.OnceNext` | server/agent/action-queue-worker.js:49-54 | every step keeps the at-most-once invariant, including a crash after success and before the row is completed |
| `ActionQueueStore.NextDueExists` | server/agent/action-queue-store.js:135-144 | when anything is due there is an earliest due row to lease |
| `ActionQueueStore.NextDueMeans` | server/agent/action-queue-store.js:135-144 | the row to lease is ripe and no other ripe row has an earlier next attempt, or an equal one and an earlier creation |
| `ActionQueueStore.Store.EnqueueAction` | server/agent/action-queue-store.js:24-50 | inserts a fresh row or leaves an existing one as it is |
| `ActionQueueStore.Store.CancelUnstartedAction` | server/agent/action-queue-store.js:62-74 | cancels both rows in one transaction exactly when the row is queued or waiting and the action not executed |
| `ActionQueueStore.Store.StopLeasedAction` | server/agent/action-queue-store.js:84-101 | stops the row exactly when the status is one of the three allowed and the row is leased to the caller |
| `ActionQueueStore.Store.RequeueAction` | server/agent/action-queue-store.js:103-122 | requeues failed or cancelled rows only, never an uncertain outcome or one held for review |
| `ActionQueueStore.Store.LeaseNextAction` | server/agent/action-queue-store.js:125-161 | leases an earliest due row and closes its open attempts; nothing when nothing is due; other rows untouched |
| `ActionQueueStore.Store.LeaseActionByActionId` | server/agent/action-queue-store.js:163-184 | leases the given row exactly when it is due; an error without an id or an owner |
| `ActionQueueStore.Store.RenewActionLease` | server/agent/action-queue-store.js:186-197 | extends the lease exactly when the caller holds it; an error without an id, an owner or a positive lease |
| `ActionQueueStore.Store.BeginActionAttempt` | server/agent/action-queue-store.js:199-223 | opens attempt `attempt_count + 1` exactly when the caller holds an unexpired lease |
| `ActionQueueStore.Store.SettleAttempt` | server/agent/action-queue-store.js:292-320 | closes attempt and row together exactly when both still belong to the caller |
| `ActionQueueStore.Store.CompleteActionAttempt` | server/agent/action-queue-store.js:225-227 | completes attempt and row, or changes nothing |
| `ActionQueueStore.Store.FailActionAttempt` | server/agent/action-queue-store.js:229-258 | waits, gives up or stops by class and attempt number, with the retry delay |
| `ActionQueueStore.QueueWorker.constructor` | server/agent/action-queue-worker.js:21-31 | a worker always has a name |
| `ActionQueueStore.QueueWorker.ProcessAction` | server/agent/action-queue-worker.js:33-36 | passes through exactly the states of `Stretch` and calls the tool exactly when `Invokes` says so; an unknown action changes nothing |
| `ActionQueueStore.QueueWorker.ProcessNext` | server/agent/action-queue-worker.js:38-41 | the same for an earliest due action of the whole queue; an error when the lease time is not positive |
| `ActionQueueStore.QueueWorker.ExecuteLeased` | server/agent/action-queue-worker.js:43-136 | the guarded sequence of checks reaches the decision of `Decide` and stores its states in order |
| `ActionQueueStore.QueueWorker.StopWith` | server/agent/action-queue-worker.js:166-170 | the status write and then the stop, as two separately durable statements |
| `ActionQueueStore.QueueWorker.CompleteRecorded` | server/agent/action-queue-worker.js:49-54 | an action already executed gets a completed attempt without a call |
| `ActionQueueStore.QueueWorker.Returned` | server/agent/action-executor.js:16-55 | the stored states after the tool, in order: `executed` or `failed`, or `executed` and then `failed` when publishing raises an error |
| `ActionQueueStore.QueueWorker.SettleCall` | server/agent/action-queue-worker.js:150-163 | settles with the class the run model records; refused exactly when the lease is gone |
| `ActionQueueStore.ApprovalManager.ApproveAction` | server/agent/approval-manager.js:81-149 | approves exactly a pending, unblocked action with a usable account, in the two writes of `ApprovalStates` |
| `ActionQueueStore.ApprovalManager.RejectAction` | server/agent/approval-manager.js:223-238 | rejects exactly a pending action |
| `ActionHome.Home.StoredIsSound` | server/agent/action-queue-store.js:24-320 | every record in a store driven by these classes is where a run from its proposal has arrived, and so has all that runs have: the invariant, and calls at most once |
| `ActionHome.Home.Approve` | server/agent/approval-manager.js:81-149 | approving through the classes is the approval step of the model |
| `ActionHome.Home.Process` | server/agent/action-queue-worker.js:33-136 | processing an action through the classes is the whole stretch of the model, and starts a call exactly when the model adds one |
| `ActionHome.Home.Tick` | server/agent/action-queue-worker.js:38-136 | a scheduler tick is the stretch of one due action, or changes nothing |
| `ActionHome.Home.Return` | server/agent/action-executor.js:16-55 | the executor's writes are the return step of the model, followed by the publish failure when there is one |
| `ActionHome.Home.Settle` | server/agent/action-queue-worker.js:150-163 | settling through the classes is the settlement step of the model |
| `EventLog.DomainPattern` | majordomo/src/events.rs:303-306 | a domain pattern selects exactly the types that extend the domain by a dot |
| `EventLog.ExactPattern` | majordomo/src/events.rs:307 | a pattern that is neither the star nor a domain matches its own type and no other |
| `EventLog.MatchesExactly` | majordomo/src/events.rs:299-309 | a pattern matches exactly what it asks for: everything, a domain, or one type |
| `EventLog.SelectMembers` | majordomo/src/events.rs:275-282 | the selection is ordered and holds exactly the matching entries of its range |
| `EventLog.SelectSplit` | majordomo/src/events.rs:275-282 | selections over adjoining ranges join without loss or repeat |
| `EventLog.ReadAfterCovers` | majordomo/src/events.rs:275-282 | one bounded read, filtered, is the selection up to the last entry read, and is empty only at the end of the log |
| `EventLog.OneRead` | majordomo/src/events.rs:39 | one read of a replay is the entries after the cursor from the first on, all of them or 256 |
| `EventBus.NextKeeps` | majordomo/src/events.rs:380-506 | every atomic step keeps the invariant that ties cursor, buffer, channel, drops and lag flag to the log, a refused send and its flag store being two steps |
| `EventBus.DeliverDoes` | majordomo/src/events.rs:390-405 | the publisher's action by cases: flag owed, nothing new, passed over, sent while there is room, refused when full |
| `EventBus.SubscribeStarts` | majordomo/src/events.rs:411-438 | a subscription from any cursor starts in the invariant |
| `EventGuarantees.GapFree` | majordomo/src/events.rs:380-506 | in every interleaving events are handed out in order, wanted, none twice; they are a prefix of the matching entries after the start exactly when no receive overtook a drop, and always while swaps are taken outside the window between a refused send and its flag |
| `EventGuarantees.OwedExactly` | majordomo/src/events.rs:411-438 | what a subscription is owed: the log entries past its start of the types its pattern asks for, in order |
| `EventGuarantees.ChannelBounded` | majordomo/src/events.rs:355 | in every run the channel holds no more than its capacity, and a capacity of zero counts as one |
| `EventGuarantees.ExactSubscription` | majordomo/src/events.rs:299-309 | a subscription to one type is owed exactly the entries of that type, and handed a prefix of them while swaps are calm |
| `EventGuarantees.OvertookMeans` | majordomo/src/events.rs:477-483 | a run overtook a drop exactly when one of its steps receives an event announced after a drop past the cursor |
| `EventGuarantees.CalmMeans` | majordomo/src/events.rs:465 | a run is calm exactly when none of its steps swaps the lag flag inside the window |
| `EventGuarantees.Complete` | majordomo/src/events.rs:477-485 | when a receive times out with everything announced, every matching event has been handed out exactly when no drop was overtaken and none is outstanding; always in calm runs; an outstanding drop is flagged or about to be |
| `EventGuarantees.ResumeContinues` | majordomo/src/events.rs:454-456 | a later subscription from the saved cursor continues the same sequence with nothing lost or repeated exactly when neither overtook a drop |
| `EventGuarantees.CursorIsLastHanded` | majordomo/src/events.rs:453-456 | the cursor is the number of the last event handed out exactly when it has not moved or its log entry matches |
| `EventWitnesses.RaceLosesEvent` | majordomo/src/events.rs:397-402 | a run in which an event between two handed-out ones is never handed out |
| `EventWitnesses.TimesOutTooEarly` | majordomo/src/events.rs:477-485 | a run in which a receive times out with everything announced and one event outstanding |
| `EventWitnesses.CursorPastFiltered` | majordomo/src/events.rs:500-503 | a run in which a refill moves the cursor with nothing handed out |
| `Subscription.Feed.constructor` | majordomo/src/events.rs:411-438 | a subscription starts as `Subscribe` says |
| `Subscription.Feed.Publish` | majordomo/src/events.rs:212-245 | appends at the end and keeps the invariant |
| `Subscription.Feed.TrySendNext` | majordomo/src/events.rs:390-399 | sends, filters or refuses the next event, without touching the flag |
| `Subscription.Feed.StoreFlag` | majordomo/src/events.rs:400 | the flag store as an atomic action of its own |
| `Subscription.Feed.AnnounceNext` | majordomo/src/events.rs:390-405 | both in a row, when nothing happens in between |
| `Subscription.Feed.DeliverPending` | majordomo/src/events.rs:380-409 | an undisturbed pass announces every appended event in order, no more, and counts them |
| `Subscription.Feed.ReadOnce` | majordomo/src/events.rs:489-505 | one read fills the buffer, skips a wholly filtered batch, or finds the end of the log |
| `Subscription.Feed.RefillBuffer` | majordomo/src/events.rs:489-506 | refilling ends, under any interference, with a filled buffer, the replay done, or a read error and the replay still due |
| `Subscription.Feed.DrainChannel` | majordomo/src/events.rs:465-469 | draining under interference keeps the invariant and asks for a replay |
| `Subscription.Feed.CatchUp` | majordomo/src/events.rs:465-476 | the lag check and replay hand nothing out and leave buffer or channel to read |
| `Subscription.Feed.TakeLive` | majordomo/src/events.rs:477-485 | hands out a newer event, skips a stale one, or times out, complete exactly when no drop was overtaken or is outstanding |
| `Subscription.Feed.RecvTimeout` | majordomo/src/events.rs:459-487 | under arbitrary interference, refused sends not yet flagged and read errors included: order always, no gap exactly when no drop was overtaken, completeness on a timeout exactly when none is outstanding either |
| `CivilDate.YearOfEraCorrect` | majordomo/src/date.rs:18-23 | the year-of-era formula finds the March-year that holds the day |
| `CivilDate.DaysRoundTrip` | majordomo/src/date.rs:8-29 | for every integer, the date is valid and converts back |
| `CivilDate.DateRoundTrip` | majordomo/src/date.rs:8-29 | every valid date comes back from its day number |
| `CivilDate.NextDayNumber` | majordomo/src/date.rs:8-38 | the next calendar date has the next day number |
| `CivilDate.CountsDayByDay` | majordomo/src/date.rs:8-38 | both conversions agree with counting day by day from 1970-01-01 in either direction |
| `CivilDate.YearFromDays` | majordomo/src/date.rs:8-29 | the year is at least y exactly from the first day of y on |
| `DateText.NumExact` | majordomo/src/date.rs:40-44 | a fixed-width field is read as n exactly when it is the digits of n |
| `DateText.ParseExact` | majordomo/src/date.rs:53-102 | a text parses to an instant exactly when it is the written form of an acceptable stamp naming it |
| `DateText.DateAloneIsDayEnd` | majordomo/src/date.rs:73-101 | a date alone means the last second of its day, and an eastern offset is taken off |
| `DateText.FormatRoundTrip` | majordomo/src/date.rs:105-115 | parsing the printed form gives the instant back for every second from 1970 to 9999 |
| `DateText.FormatOutOfRange` | majordomo/src/date.rs:105-115 | outside those years the printed form is refused |
| `DateText.NormalizeIdempotent` | majordomo/src/date.rs:118-120 | normalising is idempotent on an accepted text exactly when its instant lies in those years |
| `DateText.OffsetLeavesRange` | majordomo/src/date.rs:80-101 | an accepted text whose normal form is refused |
| `MarkdownLists.ParseListLines` | docs/browser/app.js:422-454 | the stack builds the tree that the lines stand for: outline and list types as defined without a stack |
| `MarkdownLists.MarkersAreItems` | docs/browser/app.js:432-443 | each marker line is exactly one item, in source order, with its own text first |
| `MarkdownLists.ParentIsNearest` | docs/browser/app.js:437-442 | p is the parent of an item exactly when it is the nearest earlier marker with strictly smaller indent, or the root when there is none |
| `MarkdownLists.FrameIsNearest` | docs/browser/app.js:437-450 | searching the stack, popping or not, finds what looking back over every item finds |
| `MarkdownLists.InsertOutline` | docs/browser/app.js:438-443 | an appended item comes last in pre-order, under the item it was appended to |
| `MarkdownLists.AddTextOutline` | docs/browser/app.js:448-450 | a continuation line changes the text of one item only |
| `MarkdownLists.ContinuationJoins` | docs/browser/app.js:443-451 | a line without a marker adds its text to exactly the nearest earlier item indented less, and to none when there is none |
| `MarkdownLists.TreeIsDetermined` | docs/browser/app.js:422-454 | only one tree stands for given lines |
| `MarkdownTables.SplitTableRow` | docs/browser/app.js:405-420 | a row, without its outer space and pipes, is split into the cells defined by recursion on its text |
| `MarkdownTables.SplitPipes` | docs/browser/app.js:410-419 | the character loop cuts at the pipes that are not escaped |
| `MarkdownTables.RowRoundTrip` | docs/browser/app.js:405-420 | any cells, pipes and backslashes included, can be written as a row that splits back into them |
| `MarkdownTables.SplitExactly` | docs/browser/app.js:410-419 | a text splits into cells exactly when they are, trimmed, cells it can have been written from, with pipes escaped |
| `MarkdownTables.RowBodyExactly` | docs/browser/app.js:406-408 | what is taken off a row: outer white space and at most one pipe on each side |
| `MarkdownBlocks.CollectBlocks` | docs/browser/app.js:299-403 | whatever the line tests accept: terminates on every input; spans are ordered, disjoint and cover every non-blank line, and each block is what its span stands for |
| `MarkdownGrammar.CollectDocs` | docs/browser/app.js:299-403 | the same with the browser's own line tests, and no other blocks stand for the lines |
| `MarkdownLines.HeadingExactly` | docs/browser/app.js:305 | a line is a heading of a level and text exactly when it is written as one |
| `MarkdownGrammar.TextEndFrom` | docs/browser/app.js:305 | the heading's text is the shortest before a closing of white space and hashes |
| `MarkdownLines.FenceExactly` | docs/browser/app.js:304 | which lines are fences, with their mark and the rest |
| `MarkdownLines.QuoteExactly` | docs/browser/app.js:307 | which lines are quoted, and the text they quote |
| `MarkdownLines.UnquotedExactly` | docs/browser/app.js:344-347 | a line of a quote gives the text it quotes, or all of itself when it quotes none |
| `MarkdownLines.MarkerExactly` | docs/browser/app.js:308 | which lines are list markers, with indent, kind and text |
| `MarkdownLines.ListLineExactly` | docs/browser/app.js:377 | a list takes markers, and lines that are indented and not blank |
| `MarkdownLines.RuleExactly` | docs/browser/app.js:306 | a line is a rule exactly when it is three or more of one mark with any white space after each, after at most three spaces |
| `MarkdownLines.TableRowExactly` | docs/browser/app.js:309 | a table row is exactly text on both sides of a pipe, an optional pipe around it, after at most three spaces |
| `MarkdownLines.TableRuleExactly` | docs/browser/app.js:310 | a table separator is exactly a line of written separator cells |
| `MarkdownLines.KindExactly` | docs/browser/app.js:312-400 | each kind of block by what its first line is and is not |
| `MarkdownLines.JoinSplits` | docs/browser/app.js:399 | the lines of a paragraph can be cut out of its text again |
| `MarkdownLines.AlignMarks` | docs/browser/app.js:355-361 | colons at both ends, right, left or nowhere give the alignment |
| `MarkdownLines.MarkerOpensTable` | docs/browser/app.js:353-372 | a list marker that is also a table row ends a paragraph and opens a table |
| `MarkdownBlocks.CollectBlock` | docs/browser/app.js:312-400 | the first line decides the kind by the order of the tests, and the block reaches as far as that kind allows |
| `MarkdownBlocks.CollectCode` | docs/browser/app.js:317-327 | code runs to the first line that starts with the fence, or to the end |
| `MarkdownBlocks.CollectQuoted` | docs/browser/app.js:342-351 | a quote is the longest run of non-blank lines, unquoted line by line |
| `MarkdownBlocks.CollectTable` | docs/browser/app.js:353-370 | header, alignments and the longest run of rows |
| `MarkdownBlocks.CollectList` | docs/browser/app.js:372-387 | a list runs over blank lines to its last list line, and no list line follows |
| `MarkdownBlocks.CollectParagraph` | docs/browser/app.js:389-400 | a paragraph reaches exactly as far as lines would by themselves be paragraphs, or tables that no list marker opens |
| `MarkdownBlocks.ParagraphEnds` | docs/browser/app.js:389-400 | what ends a paragraph is blank, starts another kind of block, or is a list marker that opens a table |
| `MarkdownBlocks.QuoteShrinks` | docs/browser/app.js:342-351 | the lines inside a quote hold strictly less text, so the recursion ends |
| `MarkdownBlocks.BlocksAreDetermined` | docs/browser/app.js:299-403 | only one sequence of blocks is what given lines stand for, at every depth of quoting |
| `Calendar.AddDaysMoves` | public/components/calendar-math.js:12-14 | adding days moves the day number by exactly that many, across months and years |
| `Calendar.WeekStart` | public/components/calendar-math.js:16-20 | the start of the week is the latest date, at most six days back, on the chosen weekday |
| `Calendar.WeekdaysFollow` | public/components/calendar-math.js:16-20 | 1970-01-01 is a Thursday and weekdays follow one another |
| `Calendar.WeekdayCounted` | public/components/calendar-math.js:16-20 | every date has the weekday its distance from that Thursday says |
| `Calendar.DayZeroIsLastDay` | public/components/calendar-math.js:22-24 | day 0 of the next month is the last day of the month |
| `Calendar.AddMonthsClamps` | public/components/calendar-math.js:28-32 | the month moves by exactly the number asked for and the day stays or becomes the last day |
| `Calendar.AddMonthsCompose` | public/components/calendar-math.js:28-32 | two moves equal one exactly when the stop between does not cut the day below where it ends |
| `Calendar.AddMonthsBack` | public/components/calendar-math.js:28-32 | moving back undoes moving forth exactly when the day exists in the month visited |
| `Calendar.MonthGrid` | public/components/calendar-math.js:45-53 | consecutive dates in whole weeks, from the week of the first to the week of the last day |
| `Calendar.EachDayOnce` | public/components/calendar-math.js:45-53 | every day of the month is in exactly one place, in the column of its weekday |
| `Calendar.EachWeekHoldsADay` | public/components/calendar-math.js:45-53 | no week of the grid lies outside the month |
| `Calendar.RangeFor` | public/components/calendar-math.js:56-70 | the range each view needs, and an error for the list view only |
| `Calendar.RangeIsGrid` | public/components/calendar-math.js:65-68 | the month range is exactly the days of the grid |
| `Calendar.ShiftBack` | public/components/calendar-math.js:72-77 | a step and its opposite cancel, except for a month too short for the day |
| `Calendar.ShiftMoves` | public/components/calendar-math.js:72-77 | a step is one day, seven days or one month in the direction given, and none for the list |
| `CalendarEvents.DayListIsExact` | public/components/calendar-math.js:102-110 | the list of a day holds exactly the events that touch it, as often as given, earliest first, ties in the order they came |
| `CalendarEvents.ListedIffTouches` | public/components/calendar-math.js:102-107 | the listing test holds exactly when some instant of the event lies in the day |
| `CalendarEvents.ListedOnContiguousDays` | public/components/calendar-math.js:91-110 | an event is listed exactly on the days from that of its start to that of the last instant before its end, or its start alone without a later end, whatever the lengths of the days |
| `CalendarEvents.EveryEventHasADay` | public/components/calendar-math.js:91-110 | an event is listed on some day exactly when it has a readable start |
| `CalendarEvents.RangeListsWhatItCovers` | public/components/calendar-math.js:56-70 | over a range of days an event is listed exactly when it is under way between the range's midnights |
| `CalendarEvents.MonthViewPlacement` | public/components/calendar-math.js:45-110 | an event appears in the month grid exactly when it is under way in the range the view asks for |
| `Applications.SubmitOncePerJob` | mcp/jobs/apply.js:39-42 | over runs that do not overlap on a job, each of which may die at any step, two clicks on one job have a rewrite to `failed` or an owner's edit between them |
| `Applications.SkippedNeverSubmitted` | mcp/jobs/ledger.js:12-16 | over runs that do not overlap on a job, no click on a skipped job comes before its owner has edited the record |
| `Applications.RecordedJobIsRefused` | mcp/jobs/apply.js:39-42 | over all runs, while a job's last record says skipped, applied, unconfirmed or needs its owner, no check on it starts a run |
| `Applications.CheckStartsExactly` | mcp/jobs/apply.js:39-45 | a check starts a run exactly on a job without a record or with one that needs answers, was dry or failed, and below the limit when it submits |
| `Applications.StepsStore` | mcp/jobs/apply.js:70-95 | what stopping, recording the intent and recording the outcome store |
| `Applications.StepsEnd` | mcp/jobs/apply.js:80-98 | giving up releases the lock only if it was taken, and a click comes after the run's own record |
| `Applications.SkipStores` | mcp/jobs/server.js:55-60 | a skip is recorded exactly on a job that is not submitted or skipped already |
| `Applications.LockTakes` | mcp/jobs/apply.js:49-55 | a free lock is taken, a held one ends the run with nothing changed |
| `Applications.OneRunPerJob` | mcp/jobs/apply.js:49-55 | over all runs, unless a job's lock expires, no two runs are past the lock on it at once |
| `Applications.OnlySubmittersClick` | mcp/jobs/apply.js:75-83 | over all runs, only a run that was to submit records its intent and clicks |
| `Applications.ClickOnOwnRecord` | mcp/jobs/apply.js:80-83 | a click finds the run's own unconfirmed record in place, on a job no earlier click left unsettled |
| `Applications.RepeatsExactlyWhenUnseen` | mcp/jobs/apply.js:39-53 | over all runs, a click repeats a submission exactly when a click stands that came after the run's record check, or whose record was lowered between its own intent and the check |
| `Applications.SubmittedOnceExactly` | mcp/jobs/apply.js:39-53 | over all runs, any two clicks on a job have a reopening between them exactly when no click was made over one its check had not seen |
| `Applications.OverlapLimit` | mcp/jobs/apply.js:43-45 | with a fixed limit, however runs overlap, no 24-hour window holds more counted records than the limit and the other submitting runs open at one time |
| `Applications.RollingLimit` | mcp/jobs/apply.js:43-45 | with one submitting run open at a time, no 24-hour window ever holds more counted records than the limit |
| `ApplicationWitnesses.OverlapSubmitsTwice` | mcp/jobs/apply.js:39-53 | two overlapping runs that submit one job twice |
| `ApplicationWitnesses.HiddenClickRepeats` | mcp/jobs/apply.js:39-53 | two ways in which a click before the check escapes it: the record lowered after the click, or rewritten to `failed` between intent and click |
| `ApplicationWitnesses.LimitReached` | mcp/jobs/apply.js:43-53 | for every limit and every number of open runs, a run that counts the limit and all the other open runs in one window |
| `ApplicationVault.Vault.WriteRecord` | mcp/jobs/ledger.js:54-64 | merges with the stored record, keeping what the writer does not give |
| `ApplicationVault.Vault.CountRecent` | mcp/jobs/ledger.js:67-70 | going through the records one by one, in any order, counts exactly the jobs submitted in the last day |
| `ApplicationVault.Vault.CheckRecord` | mcp/jobs/apply.js:39-45 | refuses exactly records that are applied, unconfirmed, skipped or need their owner and, when submitting, a reached limit |
| `ApplicationVault.Vault.TakeLock` | mcp/jobs/apply.js:49-55 | takes the lock exactly when nobody holds it |
| `ApplicationVault.Vault.RecordFirst` | mcp/jobs/apply.js:80-82 | the unconfirmed record with its time is in place before the click |
| `ApplicationVault.Vault.Submit` | mcp/jobs/apply.js:80-98 | record, click, outcome, release: the three steps of the run model in that order |
| `ApplicationVault.Vault.ApplyToJob` | mcp/jobs/apply.js:32-100 | an undisturbed run performs exactly the steps of its script, whichever way it ends |
| `JsText.BlankIsAllSpace` | docs/browser/app.js:315 | a line is blank exactly when all of it is white space |
| `JsText.SpacesAre` | docs/browser/app.js:315 | the white space that `trim` and `\s` take, character by character |
| `JsText.TrimExactly` | mcp/lib/stdio-server.js:48 | trimming takes white space off both ends, all of it and nothing else |
| `JsText.IndexOf` | mcp/lib/stdio-server.js:47 | the leftmost occurrence, or none at all |
| `Framing.ChunkingInvariant` | public/services/events.js:60-75 | however the input is cut into chunks, frames and tail are those of the whole text |
| `Framing.CutIsFaithful` | public/services/events.js:69-73 | joining the frames and the tail gives the text back; every frame ends at its first separator |
| `Framing.CutIsUnique` | public/services/events.js:69-73 | no other cut does |
| `StreamClients.LineReader.OnData` | mcp/lib/stdio-server.js:44-55 | after any chunks the lines handled are the non-empty trimmed lines of the whole input and only the tail is buffered |
| `StreamClients.LineReader.HandleLines` | mcp/lib/stdio-server.js:47-54 | the loop handles every complete line in order |
| `StreamMeaning.SentLinesHandled` | mcp/lib/stdio-server.js:44-55 | messages sent one to a line, with any white space around them, are all handled, in order, without the empty ones, and with nothing left over |
| `StreamClients.BoundedMemory` | public/services/events.js:77-103 | over any frames the seen set is the order queue's contents, without duplicates, at most 512, and two dispatches of one id have at least 512 of others between them |
| `StreamClients.EventsService.RememberEventId` | public/services/events.js:97-103 | remembers the id and forgets the oldest past 512 |
| `StreamClients.EventsService.ReadFields` | public/services/events.js:78-84 | the fields of a frame, comments skipped, data joined, last id kept |
| `StreamMeaning.FieldContributes` | public/services/events.js:80-84 | what a `data:` line, an `id:` line and a comment contribute |
| `StreamMeaning.FieldsExactly` | public/services/events.js:78-84 | the data is what the `data:` lines add up to and the id that of the last `id:` line |
| `StreamMeaning.FrameReadsBack` | public/services/events.js:78-84 | a frame written with an id and data reads back as them |
| `StreamClients.EventsService.DispatchFrame` | public/services/events.js:77-95 | one frame changes memory and dispatches as `Dispatch` says |
| `StreamMeaning.DispatchedExactly` | public/services/events.js:85-91 | after any frames, one more is dispatched exactly when its data parses and its id is none of the last 512 dispatched, or it has none; the last id is kept |
| `StreamClients.EventsService.Pump` | public/services/events.js:60-75 | a whole connection dispatches the frames of its concatenated input, on top of what earlier connections left |

## Assumptions

- Each SQL statement or transaction, file rename and page click is atomic. From the lease to the attempt a
  worker does not yield, and only one process works on the home at a time, so a stretch is one step that may
  be cut after any statement. External calls and everything after them interleave freely.
- An action is enqueued without the owner only once it is recorded as approved, and `updateAgentAction`
  changes only the fields it is given.
- Policy, goal scope, deadline, package and account checks are answers chosen anew at every step.
- The queue row's foreign key keeps its action in place, so the worker's missing-action branch is not taken.

## Left out

- `repropose` and the bookkeeping fields (results, error texts, references, actors) are not modelled.
- Restoring a backup, with its quarantine of open actions, is left out.
- Publishing of queue events, and `last_error`, `updated_at` and correlation ids, are not modelled.
- Error codes are upper-cased in ASCII only; the retryable and authentication codes are ASCII.
- `maxAttempts` and the delays are the defaults the worker uses, not parameters.
- Of the event bus, one subscriber is followed at a time; the subscriber limit, disconnection, payload validation and `read_last` are left out.
- Integers are unbounded: the 64-bit width of day numbers and sequence numbers is not modelled.
- MarkdownLists.ParseListLines: the shared list objects on the stack are modelled as the path to the newest item, so aliasing in place is not captured.
- Inline Markdown, slugs and HTML rendering are left out.
- Calendar fields stand for local dates; the two-digit-year rule of the date constructor and the texts of period labels are left out.
- CalendarEvents.DayListIsExact: local midnights are any strictly increasing sequence of instants, so day length is free but no particular time zone is modelled.
- Page filling, posting lookup and outcome polling of an application are answers chosen by the environment; file locks are a set whose entries may expire at any time.
- Byte decoding and JSON parsing of streams are left out; frames that do not parse are dropped by an arbitrary test.
- Web components, the extension, voice, addons, daemon and server start-up are left out.
