# Sagawise: a verified model of the saga engine

Sagawise keeps the books of a saga: services report that they published, consumed or failed a
message of a workflow instance, a reaper fails the tasks whose consumer is late, and two durable
queues archive finished instances and tell publishers about failures. All state is in one Redis
store, and one Lua script makes every state change. This project models that protocol and proves what it
promises, for every interleaving of its steps.

## What is modelled

- **The data.** `Types` has the instance document, its tasks and the store: documents, the sorted
  sets `task_deadlines`, `archive_pending` and `webhook_pending`. `ZSet` has sorted sets and range
  queries, `Json` has JSON values with the merge algorithm of RFC 7386 (section 2), `Codec` the
  textual encodings that Go and Lua share. Clocks are whole milliseconds.
- **The transition script.** `Script` says what one run answers and leaves behind. `Store` holds the
  script as it runs, a class whose fields are the Redis keys and whose methods update them in place
  with the script's loops, and proves every method equal to `Script`. `Documents` goes one level
  down: the sequence of JSON.SET and JSON.MERGE commands, executed on the stored JSON, leaves the
  document that `Script` says.
- **The engine.** `Engine` is a state machine: a start, the two steps of a report (resolve the
  tasks, later run the script), a lost report, a reaper tick, and arbitrary changes by the queue
  workers. A run is any sequence of such steps. Every script call is recorded in a log, so that
  "the latest effective publish" and "the number of OK answers" have a meaning independent of the
  stored state. `Lifecycle` has what one run of the script keeps true of its document; `Ledger`,
  `Reports`, `Races` and `History` have the theorems about reachable states and runs.
- **The batch reaper.** `Reaper` compares one `reap_batch` call with the loop of single `reap`
  calls, `Accounting` proves its counters and the Go decoder of its reply, `Draining` how fast a backlog goes away.
- **The queues.** `Queue` has leases: what claims guarantee over any history of a queue. `Worker` is a job as a
  machine (claimed, read, failing, counted, settled, removed) that may crash between any two
  steps and may outlive its lease. `Queues` is the queue updated in place. `Workers` joins the
  engine, both workers, the archive table and the receivers into one machine; `Enqueues` says which
  jobs the script queues; `Conservation` has the theorems. `Leases` puts the job machine on a clock and
  says exactly when a finished and acknowledged job comes back; `Schedules` proves both queues of
  the whole engine to be such machines, in every schedule. `Receivers` says which workflows'
  webhooks can be dropped.
- **Start-up.** `Templates` has the validation of workflow files, `Startup` the stored templates, the
  service registry and the order in which a start-up uses them. Templates survive a restart, so what
  can be started is whatever some start-up once stored.
- **Promises.** `Contract` writes out, with literal codes, fields and clocks and without reference to how
  anything is computed, what a report is answered and what it leaves, and what a reaper tick leaves, and
  proves that the engine does so. `Requests` ties stored bodies, deadlines and deliveries to the requests that were
  read, `Attempts` the outcomes of the workers to the answers they got, step by step over whole runs.
- **Inputs.** `Scenarios` has, for every valid workflow, the runs that reach the states in question.

The chain is complete from bottom to top: in-place methods equal the script function, the script
function keeps the engine's invariant, the engine with its workers refines the engine alone.

## Where the code and its documentation differ

- `docs/contract.md` (I4) promises `INSTANCE_TERMINAL` from a terminal instance whatever the state
  of the target task. The script runs the task gate first, so it says so only if the task is in the
  state the report starts from. `Reports.TerminalAnswers` gives the exact answer;
  `Scenarios.TerminalNotAlwaysSaid` a run of any valid workflow, and a report after it, that break the promise.
- The last line of the list in section 4 (a retry on a terminal instance is always a 409) is
  likewise not what the script does: a retry of a transition that was made is answered `IDEMPOTENT`, as I4 itself
  says. `Scenarios.RetryOnTerminalAccepted` is the run.
- T5 says that a PUBLISHED task has exactly one deadline. A PUBLISHED sibling in a FAILED instance
  has none, as I5 says: `Scenarios.PublishedWithoutDeadline` is the run, `Ledger.DeadlinesAreExact` the exact
  statement.
- W5 says that a publisher without a `failure_url` is a start-up error and not a runtime surprise. Start-up
  stores the templates before it checks the registry, and never removes one, so a workflow it refused
  can be started after a later start-up without its file. `Startup.TwoStartUps` is the input;
  `Receivers.NeverDroppedIffRegistered` says exactly whose webhooks can be lost.
- The comment on the claim script says that consumers get jobs at least once. Exactly once would need owners that
  keep to their leases: `Leases.RequeuedIff` says when a finished job comes back, `Leases.LateOwnerReAdds` and
  `Leases.LateAckReAdds` are the two schedules in which it does.
- The comment at `backend/instance_engine/transition.lua:237` says that `run` already removed a stale
  member. On the batch path it did not: `run` tests for the action `reap`, and here the action is
  `reap_batch`. `Reaper.MemberAgreesIff` and `Reaper.BatchAgreesIff` say when that matters, and
  `Reaper.BatchIsLoop` that it never does in a reachable state.

## Model

| member | source | states |
|---|---|---|
| Store.Keyspace.Run | backend/instance_engine/transition.lua:46-199 | the script's loops over parsed indexes, updating documents, deadlines and queues in place, leave exactly the store and reply of the specification `Script.Run`, on every exit; NOT_FOUND, BAD_SCHEMA and TASK_NOT_FOUND exactly for a missing instance, an empty task list and an index outside it |
| Store.Keyspace.Judge | backend/instance_engine/transition.lua:108-123 | every target is decided before anything is written; the first refusal stops the call, and drops a deadline only under `reap` |
| Store.Keyspace.WriteTargets | backend/instance_engine/transition.lua:146-168 | the write loop, which tests the local `states` it mutates, writes the targets the specification says, with their deadlines and webhooks |
| Store.Keyspace.SettleInstance | backend/instance_engine/transition.lua:170-195 | counting states decides "some FAILED" and "all COMPLETED"; a failure drops the deadlines of every task; a terminal turn queues one archive job |
| Store.CommitInPhases | backend/instance_engine/transition.lua:146-198 | the write phase followed by the instance phase is one atomic outcome |
| Store.StatesStep | backend/instance_engine/transition.lua:147-167 | the test on the mutated `states` table equals the test on the document before the loop, also when an index repeats |
| Store.ParseIndexes | backend/instance_engine/transition.lua:59-66 | the parsed indexes are the list's prefix up to the first entry that names no task, reported as -1 when it is no number |
| Store.Keyspace.ReapBatch | backend/instance_engine/transition.lua:207-241 | the batch loop over the members it read leaves the store and the reply of the specification |
| Store.Keyspace.ReapTick | backend/instance_engine/reaper.go:106-147 | in every reachable state a tick's reply decodes, its counters agree, nothing is dropped and no lag is negative; it examines at most 1000 members, and if fewer no overdue deadline is left |
| Store.Keyspace.UpdateInstance | backend/instance_engine/instance_engine.go:293-321 | resolving, encoding the index list, decoding it in Lua and running the script equals the one-step report, and keeps the promises of `Contract` for its own request, body and clock |
| Contract.FoundExactly | backend/instance_engine/instance_engine.go:297-321 | on any store a report is NOT_FOUND iff its instance does not exist, TASK_NOT_FOUND iff the instance has tasks and it names none by topic (and consumer) |
| Contract.ReportKeepsPromise | docs/contract.md:28-69 | every report is answered by the table of actions, states and is_retry, and leaves the tasks it names with its state, body and clock, their deadlines at clock plus timeout, the instance transition, and the due jobs; everything else is as it was |
| Contract.TickKeepsPromise | backend/instance_engine/transition.lua:207-241 | in every reachable state a tick fails the first overdue task of each instance at its own clock, leaves the other tasks, fails the instance and queues one archive job and one webhook due at once |
| Contract.ReapersAnswered | backend/instance_engine/transition.lua:73-92 | what the single and the batched reap are answered for any task of any document |
| Requests.TransitionKeepsPromise | backend/instance_engine/instance_engine.go:293-321 | in every reachable state, a script call that comes any time after its request was read keeps the promises made to that request |
| Requests.StoredBodyIsRequested | backend/instance_engine/instance_engine.go:266-321 | in every reachable state a task holds the body and clock of the last publish request accepted for it, and has left PENDING iff there was one |
| Requests.DeadlineIsRequested | backend/instance_engine/transition.lua:150-156 | in every reachable state a deadline is the clock of that request plus the timeout |
| Requests.DeliveredBodyIsRequested | backend/instance_engine/instance_engine.go:504-580 | in every run every delivery carries the body of the last publish request accepted for its task |
| Requests.TicketsAreIndependent | backend/instance_engine/instance_engine.go:293-321 | a step ends the report of its own caller and no other |
| Store.ResolveIndexes | backend/instance_engine/instance_engine.go:306-311 | the loop finds exactly the tasks the report names, in index order |
| Store.Keyspace.StartInstance | backend/instance_engine/instance_engine.go:194-222 | a new instance has the template's name, versions and tasks, all PENDING with no stamp or body, and the clock in seconds; nothing else in the store changes |
| Lifecycle.EvalCases | backend/instance_engine/transition.lua:102-132 | a call either commits, or leaves the document alone, arms and queues nothing, is not OK, and drops at most deadlines that are stale |
| Lifecycle.EvalKeeps | backend/instance_engine/transition.lua:125-198 | one run keeps: at most one FAILED task, tasks of a topic leave PENDING together, the instance state is the one the task states imply; the document only moves forward |
| Lifecycle.EvalDeadlines | backend/instance_engine/transition.lua:150-186 | the deadlines one run sets and removes turn those of the old document exactly into those of the new |
| Engine.EvalGood | backend/instance_engine/transition.lua:134-198 | one run on a resolved call: the answer alone shows which tasks were published, OK lowers the rank, webhooks and archive jobs are queued exactly when the instance turns terminal |
| Engine.StepKeeps | backend/instance_engine/transition.lua:46-241 | every step of the engine keeps the invariant that ties documents, deadlines, pending reports and log, and moves documents only forward |
| Engine.ReachableInv | backend/instance_engine/transition.lua:46-241 | the invariant holds after every run, whatever the interleaving |
| Engine.ResolveTargets | backend/instance_engine/instance_engine.go:297-321 | thanks to validation a publish names all tasks of one topic and any other report names one task |
| Ledger.DeadlinesAreExact | backend/instance_engine/transition.lua:146-186 | a deadline exists exactly for the PUBLISHED tasks of live instances; its score is the clock of the latest effective publish plus the timeout, 0 to 999 ms above the document's stamp |
| Ledger.PayloadIsLatest | backend/instance_engine/transition.lua:134-156 | a task's payload and stamp are those of its latest effective publish, and it has them exactly when it has left PENDING |
| Ledger.InstanceStateIsExact | backend/instance_engine/transition.lua:170-195 | FAILED iff some task is FAILED, COMPLETED iff all are; at most 2n OK answers ever for n tasks |
| Ledger.OneFailureOneWebhook | backend/instance_engine/transition.lua:161-194 | at most one FAILED task; one webhook per FAILED instance and none otherwise, one archive job per terminal instance and none otherwise |
| Ledger.AmbiguousTasksFailTwice | backend/templating/templating.go:44-47 | why (topic, to) must be unique: without it one fail report fails two tasks |
| Ledger.TerminalIsFrozen | backend/instance_engine/transition.lua:125-132 | an instance never disappears, its task list is fixed, and once terminal no field changes under any later steps |
| Reports.ReportLinearizes | backend/instance_engine/instance_engine.go:293-321 | resolving early and running the script late, with any steps in between, answers and stores what the one-step report would at the script call; a report that resolves to nothing is refused at once, as NOT_FOUND or TASK_NOT_FOUND |
| Reports.TopicsLeaveTogether | backend/instance_engine/transition.lua:108-156 | tasks sharing a topic leave PENDING together, in every run |
| Reports.OkMovesEveryTarget | backend/instance_engine/transition.lua:108-168 | OK means every target made the transition from its start state, on a live instance, and no other task changed |
| Reports.AllOrNothing | backend/instance_engine/transition.lua:108-198 | in every reachable state a report moves all of its targets or none, and touches no other task |
| Reports.RetryUnlocksNothing | backend/instance_engine/transition.lua:73-132 | with or without is_retry a report leads to the same task states and instance state |
| Reports.RetryIsStable | backend/instance_engine/transition.lua:125-156 | a report answered OK, sent again with is_retry after any other steps, is IDEMPOTENT and changes nothing but the payload, stamp and deadline of a re-published task that is still PUBLISHED in a live instance |
| Reports.AnswerTable | backend/instance_engine/transition.lua:70-132 | the whole table of answers to a report, of one target or several: what each action, retry flag, task state and instance state is answered |
| Reports.TerminalAnswers | backend/instance_engine/transition.lua:108-132 | a terminal instance says INSTANCE_TERMINAL if and only if the task is in the report's start state, IDEMPOTENT if and only if it is a retried duplicate; nothing is written, armed or queued |
| Reports.ReplyIsTrue | backend/instance_engine/transition.lua:94-198 | the reply is true of the document left behind: target states, instance state, "ended now", "webhook queued"; a refusal names the first target that refuses |
| Scenarios.FailOneRuns | backend/instance_engine/instance_engine.go:240-360 | for every valid workflow and each of its tasks there is a run that starts it, publishes the task's topic and fails just that task |
| Scenarios.TerminalNotAlwaysSaid | docs/contract.md:52 | after such a run, a consume of a task of another topic, retried or not, is answered TASK_NOT_PUBLISHED by the terminal instance |
| Scenarios.RetryOnTerminalAccepted | docs/contract.md:77 | after such a run, the same fail report with is_retry is answered IDEMPOTENT by the terminal instance |
| Scenarios.PublishedWithoutDeadline | docs/contract.md:43 | after such a run, a task that shares the failed one's topic is PUBLISHED and has no deadline |
| History.AnswersAreThePath | backend/instance_engine/transition.lua:70-198 | in every reachable state the OK answers a task got are its path: at most one publish, then at most one consume or failure; its stamps, and a terminal instance's, are the clocks of those answers |
| History.RetryAsksWhetherItHappened | backend/instance_engine/transition.lua:73-132 | in every reachable state a report is IDEMPOTENT if and only if it says is_retry and its transition happened before; OK if and only if the instance is live and exactly the earlier transitions happened |
| Races.OneWinner | backend/instance_engine/transition.lua:94-168 | of two calls that end the same PUBLISHED task, in either order, the first is OK, the second gets the code of the winner's state and changes no document, deadline or queue |
| Races.SiblingsFreeze | backend/instance_engine/transition.lua:178-194 | when a PUBLISHED task fails, a racing call on a PUBLISHED sibling changes nothing and the sibling stays as it was |
| Races.InstancesCommute | backend/instance_engine/transition.lua:94-198 | calls on different instances commute: same store, same two answers; their queue members never coincide |
| Reaper.BatchIsLoop | backend/instance_engine/transition.lua:207-241 | in every reachable state one batch leaves what single reaps over the due members, in order, would leave, several tasks of one instance included |
| Reaper.MemberAgreesIff | backend/instance_engine/transition.lua:103-120 | on an arbitrary store, for any member of the deadlines, malformed ones included, the two forms agree exactly when it names a task that exists and ticks or has no canonical deadline |
| Reaper.BatchAgreesIff | backend/instance_engine/transition.lua:207-241 | on an arbitrary store a whole batch over task members agrees with the loop if and only if each names an existing task of an instance that some member of the batch ends |
| Accounting.BatchAccounting | backend/instance_engine/transition.lua:226-236 | reaped tasks, webhooks and archive jobs all equal the number of distinct instances among the examined members; each listed task has its latest deadline, which has passed |
| Accounting.DecodeReply | backend/instance_engine/reaper.go:116-147 | the decoder accepts exactly the well-formed replies and decodes entry by entry |
| Accounting.CountersInOrder | backend/instance_engine/transition.lua:241 | the reply lists the counters in the order in which the decoder reads them |
| Accounting.ReplyDecodes | backend/instance_engine/reaper.go:92-147 | the reply of every batch in every reachable state is well formed, splitMember names the reaped tasks again, and no lag is clamped |
| Draining.OverdueDrains | backend/instance_engine/transition.lua:208-239 | from any reachable state, under interleaved steps at clock T or later, deadlines at or before T never grow and ticks remove as many as they may examine; N are gone after ceil(N/limit) ticks |
| Draining.TickDrains | backend/instance_engine/transition.lua:208-239 | one tick at or after T removes at least min(limit, remaining) of the deadlines at or before T and adds none |
| Queue.ClaimConserves | backend/instance_engine/queue.go:30-36 | a claim adds and loses no member, and moves exactly what it returns, to the end of the lease |
| Queue.ClaimsAreDisjoint | backend/instance_engine/queue.go:26-45 | claims of any workers within one lease return disjoint members, unless somebody acks, moves or re-queues them |
| Queue.ClaimedInTime | backend/instance_engine/queue.go:26-45 | a due job with k members at or before its score is claimed within floor(k/batch)+1 claims, however other jobs come and go |
| Queue.ExpBackoff | backend/instance_engine/queue.go:245-257 | the delay is the smaller of base and cap up to the first failure, and with a whole factor the smaller of base * factor^(attempts-1) and cap; else multiplied and truncated attempts minus one times, capped |
| Queue.WholeFactor | backend/instance_engine/engine.go:178-194 | with a whole factor, as both workers have, that is base times factor to the attempts minus one |
| Queues.ZQueue.Claim | backend/instance_engine/queue.go:26-45 | the claim script's loop leases exactly the range it read and starts one job per member |
| Queues.ZQueue.Done | backend/instance_engine/queue.go:47-54 | the two separate commands remove the job and its attempt count, each unless it fails |
| Queues.ZQueue.Bump | backend/instance_engine/queue.go:56-59 | one more failed attempt is counted and the new count returned |
| Queues.ZQueue.Reschedule | backend/instance_engine/queue.go:61-64 | the job is due at the given time, whether or not it was still queued |
| Queues.ZQueue.RunJob | backend/instance_engine/queue.go:196-238 | an undisturbed job ends removed on success, drop or the last attempt, else rescheduled after the backoff of its attempt count, in step with the job machine, whichever commands fail |
| Queues.ZQueue.RunArchiveJob | backend/instance_engine/engine.go:175-184 | the archive worker's retry comes min(1 s * 2^(n-1), 30 s) after the n-th failure, for ever |
| Queues.ZQueue.RunWebhookJob | backend/instance_engine/engine.go:185-201 | the webhook worker's retry comes min(2 s * 3^(n-1), 5 min) after the n-th failure, and the 8th failed attempt is the last |
| Worker.StepKeeps | backend/instance_engine/queue.go:196-238 | any step of any job, crashes and late owners included, loses no job: what was enqueued is queued, done, dropped, or given up after MaxAttempts counted failures |
| Worker.AttemptsKept | backend/instance_engine/queue.go:213-228 | the attempts hash never counts more than the attempts that failed, so giving up takes MaxAttempts real failures |
| Enqueues.StepQueued | backend/instance_engine/transition.lua:161-194 | a step queues an archive job exactly for each newly terminal instance and a webhook exactly for each newly FAILED task |
| Enqueues.StepDue | backend/instance_engine/transition.lua:164-193 | a job that a report or a tick queues is due at once, and every other job keeps its time |
| Workers.NoteResolves | backend/instance_engine/instance_engine.go:504-545 | a queued webhook's member parses, its task exists and has both names; it is dropped if and only if the lookup answers that its publisher has no URL |
| Workers.WorkersTouchNothing | backend/instance_engine/instance_engine.go:465-580 | no worker step changes a document, a deadline or a pending report |
| Workers.WStepKeeps | backend/instance_engine/instance_engine.go:465-580 | every step of engine, workers, archive and receivers together keeps the joint invariant |
| Conservation.ArchiveConservation | backend/instance_engine/instance_engine.go:472-499 | each terminal instance is pending or has a row, at most one row per id, each row is the instance's current document; only terminal instances are pending |
| Conservation.WebhookConservation | backend/instance_engine/queue.go:196-238 | every FAILED task is pending, delivered, given up after at least 8 failed attempts, or dropped for want of a URL; dropped only without a URL, delivered only with one; only FAILED tasks are pending |
| Conservation.DeliveriesCarryLatestPayload | backend/instance_engine/instance_engine.go:504-580 | each delivery goes to the publisher's registered URL for a FAILED task, names its consumer, and carries the body of its latest effective publish |
| Attempts.StatusDecides | backend/instance_engine/instance_engine.go:563-575 | a post to a registered URL ends the job well and logs the delivery iff the status is 200 to 299; any other status logs nothing and counts one failure |
| Attempts.WebhooksAreAnswered | backend/instance_engine/queue.go:196-238 | in every run a delivery is logged iff some post was answered 200 to 299; every FAILED task is pending, so answered, has at least 8 failed attempts behind it, or its publisher has no URL |
| Attempts.RetriesStopAtEight | backend/instance_engine/queue.go:213-230 | in every run a webhook job is put back only after its first to seventh counted attempt |
| Attempts.RowsAreInserted | backend/instance_engine/instance_engine.go:491-499 | in every run a row exists iff an insert of it took effect, and an archive job ends well iff its insert was acknowledged |
| Attempts.ArchiveBranches | backend/instance_engine/instance_engine.go:472-499 | on any documents: which reads and inserts fail, drop or end the archive job |
| Attempts.WebhookBranches | backend/instance_engine/instance_engine.go:504-535 | on any documents: which members and tasks fail or drop the webhook job, and what else it reads |
| Conservation.WorkersRefineEngine | backend/instance_engine/instance_engine.go:465-580 | every run with workers is a run of the protocol in which their steps only drain the two queues |
| Receivers.NeverDroppedIffRegistered | backend/instance_engine/instance_engine.go:536-546 | in no run is a webhook of a workflow's instances dropped, if and only if every publisher of it has a URL |
| Receivers.UncoveredIsLost | backend/instance_engine/instance_engine.go:536-546 | for every workflow and task whose publisher has no URL there is a run after which the task is FAILED and its webhook neither queued, delivered nor given up |
| Leases.LeaseSafety | backend/instance_engine/queue.go:26-64 | in every run in which no ZREM or ZADD of a job comes after its owner's lease: one owner within a lease, the job leased to exactly the end of it, and once removed never queued again |
| Leases.RequeuedIff | backend/instance_engine/queue.go:196-238 | after its last removal a job is queued again iff an owner rescheduled it since; if the removal found no other owner within a lease, iff an owner did so at or after the end of its own lease |
| Leases.AllGuaranteed | backend/instance_engine/queue.go:26-64 | both of these for every job and removal in every run from the empty queue; a run without late commands up to the removal meets the condition |
| Leases.LateOwnerReAdds | backend/instance_engine/queue.go:61-64 | an owner that outlived its lease puts back a job that another one finished and acknowledged in time |
| Leases.LateAckReAdds | backend/instance_engine/queue.go:47-54 | an owner that acknowledges late takes the job from one within its lease, which puts it back though it is not late: the condition of RequeuedIff is needed |
| Leases.RunIsOps | backend/instance_engine/queue.go:26-64 | the job machine changes the sorted set as a list of claims, puts and removals, so the theorems about those apply to it |
| Schedules.ArchiveIsLeased | backend/instance_engine/instance_engine.go:465-499 | in every schedule of the whole engine archive_pending is such a machine and has the guarantees |
| Schedules.WebhooksAreLeased | backend/instance_engine/instance_engine.go:501-580 | in every schedule of the whole engine webhook_pending is such a machine and has the guarantees |
| Schedules.JobsAreClaimedInTime | backend/instance_engine/queue.go:26-45 | from every reachable state and in every schedule, both queues' due jobs are claimed within floor(k/batch)+1 claims |
| Schedules.ClaimsExclude | backend/instance_engine/queue.go:26-45 | from every reachable state and in every schedule, claims of both queues within one lease are disjoint unless a job is acked, moved or re-queued |
| Codec.MemberRoundTrip | backend/instance_engine/queue.go:259-271 | for every id, colons included, both Go's and Lua's split recover the pair printed as `id:index` |
| Codec.MemberBijection | backend/instance_engine/reaper.go:19-21 | texts and normal members correspond one to one, and printing is injective in (id, index) |
| Codec.ScansAgree | backend/instance_engine/transition.lua:215-217 | the pattern for the last field finds the same colon as the scan from the right |
| Codec.SplitMember | backend/instance_engine/queue.go:259-271 | the scanning loop answers the specification, and fails on no colon, no number, a negative one or one over 64 bits |
| Codec.IndexesRoundTrip | backend/instance_engine/instance_engine.go:435-438 | the script works with exactly the index sequence that Go encoded |
| Codec.EncodeIndexes | backend/instance_engine/instance_engine.go:435-441 | the loop yields the comma-joined decimal list |
| Codec.ScoreRoundTrip | backend/instance_engine/transition.lua:214 | a score survives being printed and parsed |
| Codec.AtoiIs64Bit | backend/instance_engine/queue.go:259-271 | an integer is read back iff it fits 64 bits |
| Documents.CommandsWriteOutcome | backend/instance_engine/transition.lua:134-190 | the JSON.SET and JSON.MERGE commands of a run, executed in order on the stored JSON, leave the document of the specification |
| Documents.DocJsonInjective | backend/instance_engine/instance_engine.go:157-181 | the stored JSON determines every field of the document, the payload's presence included |
| Documents.StoredTexts | backend/instance_engine/instance_engine.go:157-181 | the stored JSON has these field names and these state texts, and no others |
| Documents.MergedPayloadIff | backend/instance_engine/transition.lua:140-143 | a merged payload would be the body sent if and only if that body absorbs the stored one |
| Json.FlatMergeIsOverwrite | backend/instance_engine/transition.lua:140-144 | an RFC 7386 merge of non-null scalars is a field-by-field overwrite and leaves every other field untouched |
| Json.MergeReplacesIff | backend/instance_engine/transition.lua:140-143 | merging replaces a value exactly when the new one mentions every old key and has no null, recursively |
| ZSet.RangeByScore | backend/instance_engine/transition.lua:209 | the due members, earliest first, at most `limit`; what is left out is not earlier |
| Templates.Validate | backend/templating/templating.go:24-49 | no error if and only if the workflow is valid; otherwise the first thing wrong with it |
| Templates.ExplanationsAgree | backend/templating/templating.go:24-49 | a workflow has at most one explanation and a valid one none, so the error is determined |
| Templates.BlankNamesRefused | backend/templating/templating.go:25-27 | a name of spaces, tabs and line ends is refused, one with a visible ASCII character is a name |
| Templates.LoadFiles | backend/templating/templating.go:76-100 | workflows are returned if and only if every file can be read and parsed and is valid and no name occurs twice; else the first failing file and its reason |
| Startup.StoredExactly | backend/templating/templating.go:115-119 | storing puts each workflow under its own name and leaves every other stored template as it was |
| Startup.TemplateStore.StoreAll | backend/templating/templating.go:115-119 | the loop of writes updates the stored templates in place up to the first write that fails |
| Startup.FailureURL | backend/instance_engine/engine.go:71-86 | an error iff the registry cannot be read or parsed; else the URL of the first entry with the service's name, and none if there is no entry |
| Startup.RegistryHoldsEntries | backend/instance_engine/engine.go:71-86 | what the webhook worker looks up is that entry's URL |
| Startup.ValidateServices | backend/instance_engine/engine.go:98-111 | passes iff the registry can be read and the first entry of every publisher has a URL; else the first workflow and task without, and why |
| Startup.TemplateStore.StartUp | backend/main.go:258-269 | load, store in place, then check the registry: the templates and the verdict are those of the specification, whatever was stored before |
| Startup.StartUpKeeps | backend/main.go:258-269 | a start-up, refused or not, keeps every stored template valid, forgets none, and changes only those its files name |
| Startup.StoredTemplatesStart | backend/instance_engine/instance_engine.go:194-222 | after any history of start-ups an instance of every stored template may be started under all invariants; its webhooks are never dropped iff the first registry entries of its publishers all have a URL |
| Startup.ServedWorkflowsAreSafe | backend/instance_engine/engine.go:95-111 | a start-up that goes on to serve stored all of its workflows, and none of their webhooks is ever dropped |
| Startup.TwoStartUps | backend/main.go:258-269 | a workflow without a URL that one start-up refuses stays stored through a later successful one; its instance can fail and lose its webhook |

## Left out

- HTTP parsing, response bodies, status codes and the read endpoints: input and output around the core.
- Signatures, SDKs, logging, metrics, health probes, wiring, index creation and SQL schema: plumbing and foreign calls.
- Goroutines, tickers, nudges and the semaphore: each tick or job step is an atomic step that may happen at any time.
- Redis, Lua and Postgres beyond sorted maps, JSON documents, atomic scripts and insert-if-absent; a Redis call that fails before it takes effect is a step that changes nothing, and a lost acknowledgement is the crash of the job.
- Operator actions (deleting documents, adding queue members by hand) and schema 1 documents: reachable states do not include them, although `Script` and `Store` answer missing documents and empty task lists as the script does.
- Fresh instance ids are assumed: a start is enabled only for an id that is not in use.
- Lua numbers: scores are exact integers (they are below 2^53), and a task index prints as plain decimal (it is below 10^14).
- Store.ParseIndexes: models `tonumber` on plain decimal digits only; hexadecimal, fractional, signed or padded numerals, which no caller sends, read as "no number".
- Store.Keyspace.Run: with an empty index list under `reap` the script would remove the text `id:nil` from the deadlines; the model removes nothing, and no caller sends an empty list.
- ZSet.RangeByScore: Redis orders equal scores by member text; the model allows any order of equal scores, so every theorem holds for Redis' order too.
- Accounting.DecodeReply: models scores that are whole numbers in decimal; the fractional and exponent forms that ParseFloat accepts do not occur in `task_deadlines`.
- Queue.ExpBackoff: models the factor as a real number and products without rounding or overflow; durations stay below the cap times the factor.
- Workers.WStepKeeps: the time a job is put back to is arbitrary there, so conservation does not depend on the backoff; `Queues.ZQueue.RunJob` fixes it.
- Queues.ZQueue.RunJob: describes one job without other jobs interleaved; `Worker.StepKeeps` and `Leases.AllGuaranteed` cover all interleavings.
- Templates.LoadFiles: reading and parsing a file is a parameter, the workflow or one of two failures.
- Startup.TemplateStore.StartUp: the index and table creation between storing and checking is left out; its failure ends a start-up as a failed write does.
- Conservation.WebhookConservation: the registry is fixed while the engine runs; a template's task list has at most 2^63 - 1 entries.
- Reaper.BatchAgreesIff: covers members of the form `id:index`; `Reaper.MemberAgreesIff` covers every member, one at a time.
- The request that a webhook sends is its URL, its consumer and its payload; building and signing it is not modelled.
