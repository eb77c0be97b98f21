# The compliance ledger, verified

A model in Dafny 4.11 of the discrepancy ledger at the heart of the Financial Compliance Ledger
service, and proofs of what it keeps. A *discrepancy* is ingested from a message stream, moved
through its lifecycle by users and by an escalation engine, and described by an append-only log of
events. Status and resolved time are columns that three kinds of writers overwrite; the log is
written beside them under three disciplines: in one transaction (user workflow), after the column
and outside any transaction (engine), and after the insert and before the acknowledgement
(ingestion). The central question is what the log and the columns can say about each other.

`dafny verify dfyconfig.toml` checks the whole project.

## How the model is built

- `Domain`, `Ledger` hold the entities, the lifecycle table and the store calls as functions on
  tables. Unique keys, the serial counter and the CHECK constraints come from the migrations.
- `Machine` is the service as a transition system, one store call per step: any number of ingestion
  handlers, users, one engine that works through a candidate list it read earlier, one retrier
  writing to the notification log, and gaps in the sequence counter. Every store call is `Done`,
  `Refused` (no effect, error) or `Lost` (took effect, caller sees an error). All actors
  interleave. An actor that crashes midway looks like one whose remaining calls are refused.
- `AnyRun` proves what **every** run keeps. `SerialRun`, `Replay` and `Closing` prove what runs keep
  that are **serial for a discrepancy**: no user transition touches it between the engine's read of it
  and the end of the engine's work on it, nor while its handler is between insert and event, and the
  engine does not list it then. What other discrepancies meet does not matter. Two runs from the start
  show that the assumption is needed (`Replay.CrossingRunsAhead`, `Closing.StaleWriteReopens`).
- An event is *owed* while the actor that wrote a status has yet to append it, and *missed* at exactly
  four kinds of calls: an insert or an engine's status update that takes effect while its caller sees
  an error, and a refused append of a received event or of an engine's event (`SerialRun.Missing`).
- `Store`, `EscalationEngine`, `Ingestion`, `Workflow` are the imperative code: classes whose methods
  make the calls in the source's order, with its early returns. The backend's `fate` says what becomes
  of its n-th call: done, refused or lost. Whatever `fate` is, each method is proved to do exactly what
  a function of the tables and `fate` says (`Play`, `Played`, `TransitionPlayed`, `RequestPlayed`), and
  these functions to be runs of the machine. What the methods achieve is also stated in the terms of
  the message, the request, the rule and the row themselves, with the constants written out.
- `Escalation` gives a pass its meaning one discrepancy at a time; `EscalationEngine` proves that the
  tenant / rule / candidate loops, whose body changes the table they walk over, compute it.
  `PassEffects` says of one discrepancy when a pass leaves it alone, which rule changes it and how, and
  who is notified of it.
- `Listing`, `KeysetWalk`, `ServiceListing`, `RuleUpdate`, `RateLimit`, `HubRetry`, `RagSync`, `RagFeeder`,
  `TenantCache` and `Report` are the readers and guards around the ledger. Their failures have a source of their own as well: what
  the hub answers to each post, which log updates take effect, when the tenants table is down.

Step granularity. A workflow transition is one transaction and one step; it takes no row lock, so
nothing is claimed beyond serial transactions. `Locking.LockAdmitsOne` takes a request's sequence check
and its change as one step; `Locking.SplitLock` takes them as the two calls they are, the check at an
earlier moment of the run. A pass of the engine uses one clock reading. Times are integers of
nanoseconds. Ids are integers with a total order.

## What turned out differently from the documentation

- The limiter is documented as a rolling 60-second window (`internal/api/middleware/ratelimit.go:28`).
  It keeps fixed windows: up to 2N - 1 requests can pass in one closed minute, that bound is reached,
  and the rolling promise holds exactly when N is 1 (`RateLimit.RollingOnlyForOne`).
- Status is documented as derived from the events (`README.md:35`). It is a stored column. In serial
  runs it equals the fold of the events exactly when no event is owed and the last one was not missed
  (`Replay.StatusIsReplayed`); in any run exactly when the last call that wrote status or log left them
  agreed (`Replay.ReplayedIffSettled`). The serial log may lack an initial open, an escalated or an auto-closed, and
  nothing else (`Replay.LogNeverAhead`). Without seriality it can name a status that is not the last.
- A closed discrepancy does not always stay closed: a stale engine write can take a resolved one back
  to escalated and clear its resolved time (`Closing.StaleWriteReopens`). `Closing.ClosedRowChanges`
  says exactly which calls do that; none of a serial run does (`Closing.ClosedForGood`).
- expected_sequence admits two changes when their checks overlap; `Locking.SplitLock` says exactly when.
- The sync window moves to the clock reading taken before the query. A closing whose resolved time is
  older than the window at the moment it is written is never handed over (`RagSync.LateClosingIsLost`);
  the exact condition is `RagSync.HandedIffStampedInTime`. A reopened discrepancy can be handed over more than twice
  (`RagSync.StaleWriteHandsOverThrice`), but at most twice per closing. A failed upload is not retried,
  as the feeder reports success for it; the model speaks of hand-overs to the feeder.
- The listing handler documents `date_from` and `date_to` (`internal/api/handlers/discrepancies.go:32-33`)
  but does not read them; `Listing.FiltersOf` follows the code, and
  `KeysetWalk.PageIgnoresDates` says when it makes a difference, and `KeysetWalk.DateIsIgnored` that it does. The store honours them.
- The engine logs a "skipped" reply as pending, the retrier logs it as sent. A failed duplicate check
  counts as "not a duplicate"; the unique key catches it.
- A rule whose `new_severity` is not a severity has no effect: the update of the severity is refused
  before the status is touched.

## Model

| member | source | states |
|---|---|---|
| AnyRun.StepKeeps | internal/engine/escalation_actions.go:36-166 | every single store call of any actor, whether done, refused or lost, keeps the table, engine and handler invariants, loses or re-identifies no row and removes no event |
| AnyRun.HandlerStepKeeps | internal/engine/ingestion_handler.go:94-224 | an ingestion call keeps unique external ids and logs a reception only for the row it created itself |
| AnyRun.ChangeEffectKeeps | internal/engine/escalation_actions.go:45-94 | an escalate or auto-close call logs nothing but its own effect, on its own candidate, and only as its last step |
| AnyRun.RunKeeps | cmd/server/main.go:95-110 | the invariants hold after every run, however actors and failures interleave |
| AnyRun.EngineEffectsAtMostOnce | internal/engine/escalation_actions.go:45-53 | in every run each discrepancy has at most one escalated event, one auto_closed event and one notification per rule, and the engine sends at most once per rule and discrepancy |
| AnyRun.ResolvedTimeMatchesStatus | internal/store/discrepancy_store.go:247-263 | in every run resolved_at is set iff the status is resolved or auto_closed, stale engine writes included |
| AnyRun.IngestedEffectivelyOnce | internal/engine/ingestion_handler.go:134-224 | in every run there is one row and at most one received event per (tenant, external_id), and an acknowledged message has its row |
| AnyRun.LedgerOnlyGrows | migrations/003_create_ledger_events.up.sql:2-3 | between any two moments of a run the earlier ledger is a prefix of the later and rows keep tenant, external id and creation time |
| SerialRun.RunTracked | internal/engine/escalation_actions.go:73-94 | in every run serial for a discrepancy its taken statuses walk the lifecycle, and its log is behind them by exactly the missed events, but for the one event the actor at work owes |
| SerialRun.StepTracked | internal/engine/escalation_actions.go:36-166 | each step keeps that, and only four kinds of failed calls add a missed event |
| SerialRun.StepFresh | internal/engine/escalation.go:150-173 | in serial runs a candidate still to be worked on keeps the row the engine read |
| Replay.StatusIsReplayed | internal/api/handlers/discrepancies_workflow.go:118-164 | serial, any failure: the status column equals the fold of the ordered events iff no event is owed and the last status's event was not missed; the events name all statuses taken iff none is owed and no call was one of the four that miss one; the statuses walk the lifecycle from received in at most four changes of strictly rising rank |
| Replay.ReplayedIffSettled | internal/engine/escalation_actions.go:73-94 | any run, any failure: the status column equals the fold of the events iff the last call that touched the discrepancy settled it: it was a user transition, or an append naming the present status; an insert or an engine's write of the status never settles |
| Replay.UserStatusIsReplayed | internal/api/handlers/discrepancies_workflow.go:140-161 | serial, any failure: a status only users set always equals the fold |
| Replay.NothingFailedNothingMissed | internal/engine/ingestion_handler.go:208-216 | a run without failed calls misses no event |
| Replay.GoodTells | internal/engine/escalation_actions.go:73-94 | a log behind the statuses taken ends in the present one iff that one's event is in, and is complete iff none is missing |
| Replay.LostReceptionIsMissed | internal/engine/ingestion_handler.go:208-223 | a serial run from the start with one refused append: the message is acknowledged, the row open, and no event tells of it |
| Replay.LogNeverAhead | internal/engine/escalation_actions.go:73-94 | serial, any failure: the named statuses are those taken, in order, with nothing missing but an initial open, an escalated or an auto_closed |
| Replay.LifeClimbs | internal/domain/discrepancy.go:60-76 | along allowed transitions from open the rank strictly rises, so a life has at most four changes |
| Replay.FoldIsLastNamed | internal/domain/ledger_event.go:9-19 | the fold of a log is the last status its events name |
| Replay.CrossingRunsAhead | internal/engine/ingestion_handler.go:184-208 | a run without failures in which a user acknowledges a row before its received event is in: its ledger says open about an acknowledged discrepancy, for every message that can be ingested |
| Closing.ClosedForGood | internal/domain/discrepancy.go:75 | serial, any failure: the row of a resolved or auto-closed discrepancy never changes again |
| Closing.ClosedRowChanges | internal/engine/escalation_actions.go:36-166 | in every reachable world a call changes a closed row iff it is an engine call that overwrites it: a status write that takes effect, or a severity write that does with another value |
| Closing.ClosedUntilOverwritten | internal/store/discrepancy_store.go:247-263 | in every run a closed row stays as it is up to every later moment iff no call since overwrites it |
| Closing.StaleWriteReopens | internal/engine/escalation_actions.go:56-82 | a run from the start without failures, not serial: a resolution between the engine's check and its write ends escalated, without a resolved time |
| Locking.LockAdmitsOne | internal/api/handlers/discrepancies_workflow.go:93-114 | of any requests carrying one expected_sequence for one discrepancy at most one takes effect, whatever happens in between |
| Locking.LockSeesWhatWasRead | internal/store/event_store.go:148-165 | a request that takes effect under the sequence a client read meets the very log the client read |
| Locking.LatestTells | internal/store/event_store.go:137-165 | a latest sequence never falls, and stays iff the discrepancy gets no event, and then its log stays |
| Locking.EffectRaises | internal/store/event_store.go:35-65 | an effective request raises its discrepancy's latest sequence |
| Locking.SplitLock | internal/api/handlers/discrepancies_workflow.go:93-164 | check and change as two calls: two changes that took effect were checked against one sequence iff no event came between the checks, and then the second check was made before the first change |
| Locking.SplitChecksAdmitTwo | internal/api/handlers/discrepancies_actions.go:173-192 | after any run two notes on any discrepancy, both checked before either is appended, are checked against one sequence and both take effect |
| Escalation.WalkSnoc | internal/engine/escalation.go:126-147 | walking one more rule is walking the others and then evaluating that rule, so a walk that stops at the first firing rule equals the loop that never stops |
| Escalation.FiredIsDone | internal/domain/escalation_rule.go:31-35 | a discrepancy a rule has fired on matches no rule any more |
| Escalation.WalkOutcome | internal/engine/escalation_actions.go:36-166 | the status moves iff some rule fires, to the one status its present status allows; otherwise row and log stay and every matching notify rule has its notification |
| Escalation.FirstFiringDecides | internal/engine/escalation.go:126-147 | the first rule that fires decides row and log alone, and no later rule has any effect |
| Escalation.StatusIgnoresOrder | internal/store/rule_store.go:98-101 | the resulting status is the same for every order of the rules |
| Escalation.SecondPassIsIdle | internal/engine/escalation_actions.go:45-60 | a second walk at the same clock, in any rule order and under any hub, changes and sends nothing |
| EscalationEngine.ActedView | internal/engine/escalation_actions.go:17-166 | one action has one rule's effect on its discrepancy and none on any other |
| EscalationEngine.OneCandidate | internal/engine/escalation.go:150-173 | the interference argument: acting on a candidate leaves the candidates not yet reached as they were listed |
| EscalationEngine.WalkOn | internal/engine/escalation.go:126-147 | evaluating a rule over the table extends every discrepancy's walk by that rule |
| EscalationEngine.OneTenant | internal/engine/escalation.go:86-102 | evaluating a tenant completes its discrepancies' walks and leaves the other tenants' as they were |
| EscalationEngine.SecondPassChangesNothing | internal/engine/escalation.go:86-173 | a second pass at the same clock and rules leaves every discrepancy's row, events, notifications and sends, whichever way priorities tie |
| EscalationEngine.TieBreaksAgree | internal/store/rule_store.go:98-101 | two passes over the same tables leave the same statuses, whichever way priorities tie |
| EscalationEngine.EngineAloneIsSerial | internal/engine/escalation.go:86-173 | a pass that nobody interrupts is serial for every discrepancy no handler is halfway through |
| EscalationEngine.Escalator.Evaluate | internal/engine/escalation.go:86-102 | whatever fails, a pass is a run of the machine, serial for every discrepancy no ingestion is halfway through, and tries every active tenant; without failures it leaves each discrepancy as its own walk through its tenant's active rules, lower priority numbers first (loop interchange) |
| EscalationEngine.Escalator.EvaluateTenant | internal/engine/escalation.go:126-147 | whatever fails, the tenant's active rules are evaluated one after the other by rising priority, every one of them even when others failed; nothing is done when their listing fails |
| EscalationEngine.Escalator.EvaluateRule | internal/engine/escalation.go:149-173 | whatever fails, the action is tried on every listed candidate, on the tables the ones before have left; nothing is done when the listing fails |
| EscalationEngine.Escalator.ExecuteEscalate | internal/engine/escalation_actions.go:36-103 | whatever fails, the dedup check, the transition check, severity, status and event come out as the machine's calls, and so does the number of calls made |
| EscalationEngine.Escalator.ExecuteAutoClose | internal/engine/escalation_actions.go:107-166 | the same for auto-close, which stamps the resolved time |
| EscalationEngine.Escalator.ExecuteNotify | internal/engine/escalation_notify.go:16-174 | the same for notify: one log row, one send, and the row's status by the reply |
| EscalationEngine.Escalator.ExecuteAction | internal/engine/escalation_actions.go:17-32 | an action makes at most four calls and stops at the first that fails; when that is its dedup check nothing has changed |
| EscalationEngine.PlayedIsActed | internal/engine/escalation_actions.go:36-166 | the calls of an action, when none fails, amount to one action |
| EscalationEngine.PassLeads | internal/engine/escalation.go:86-173 | whatever fails, a pass is a run of the machine's engine, which ends idle or with an empty list |
| EscalationEngine.PassWalks | internal/engine/escalation.go:86-173 | without failures the tenant, rule and candidate loops amount to every discrepancy's own walk |
| PassEffects.UnsuitedIsLeftAlone | internal/store/discrepancy_escalation.go:17-56 | without failures a discrepancy that no active rule suits by tenant, status, severity and age, in particular one no older than every rule's hours, keeps row, events, notifications and sends |
| PassEffects.WhoChanges | internal/engine/escalation_actions.go:36-166 | without failures an active tenant's discrepancy changes iff some rule can change it, and then by one such rule of the lowest priority number: closed now, or escalated with the rule's severity and no resolved time, with one event that names the rule |
| PassEffects.WhoNotifies | internal/engine/escalation_notify.go:16-174 | without failures, for an active tenant's discrepancy, each added notification goes with one send, by an active notify rule that suits the discrepancy and had not notified before, its status by the hub's answer; a suiting notify rule of lower priority number than all that can change the discrepancy has notified afterwards |
| Store.Backend.ListForEscalation | internal/store/discrepancy_escalation.go:17-56 | exactly the rows of the rule's tenant, trigger status and severity (any for the wildcard) created more than its hours before now, each once, as they are; hours that do not fit a duration wrap around |
| Store.Backend.ListRules | internal/store/rule_store.go:87-121 | exactly the tenant's active rules, each once, by rising priority |
| Store.Backend.GetLatestSequence | internal/store/event_store.go:146-165 | the largest sequence number of the tenant's discrepancy, 0 without events |
| Domain.AgeTest | internal/engine/escalation.go:154-155 | for hours that fit a duration the cutoff admits exactly the rows created more than those hours, in nanoseconds, before now |
| Ingestion.Consumer.HandleMessage | internal/engine/ingestion.go:132-175 | whatever fails: each run does what the machine's handler does, settles its message exactly once, terminates it iff delivered more than three times, and creates a row iff the message is complete and new, its texts fit, and the tenant check and the insert are done; that row has the message's tenant, external id and severity, now as its creation time, open and unresolved; Ack iff it created the row, even when the event failed, or found it |
| Ingestion.Consumer.PersistDiscrepancy | internal/engine/ingestion_handler.go:157-224 | Ack iff the row was created and reported, even when the event failed; the row is the message's |
| Ingestion.Consumer.IsDuplicate | internal/engine/ingestion_handler.go:134-153 | Ack iff the lookup is done and the message's row is there; a failed lookup goes on to create |
| Ingestion.MessageHandles | internal/engine/ingestion.go:132-175 | a handler run under any failures is a run of the machine's handler |
| Ingestion.FinishedWithinFour | internal/engine/ingestion.go:20 | in every run one message with readable delivery counts, redelivered only after a Nak, is finished within four deliveries, the fourth being a Term |
| Workflow.Handler.ExecuteTransition | internal/api/handlers/discrepancies_workflow.go:118-164 | reply, tables and calls under any failure: all or nothing, but for a burnt sequence number; whether or not its sequence check has been overtaken |
| Workflow.FailureReplies | internal/api/handlers/discrepancies_workflow.go:118-164 | a transition makes at most five calls and none after a failed one, which is answered as not found if it was the read and as an internal error otherwise |
| Workflow.Handler.CheckOptimisticLock | internal/api/handlers/discrepancies_workflow.go:93-114 | when the check is done, conflict iff the expected sequence is not that of the tenant's discrepancy's last event, 0 if it has none |
| Workflow.Handler.HandleRequest | internal/api/handlers/discrepancies_actions.go:12-202 | whatever fails, a request leaves its whole effect or none; a success is one effective step of the machine that leaves the new status, the resolved time of a resolution and one event; when every call made is done the reply is that of the first check that does not hold |
| Workflow.RequestMeans | internal/api/handlers/discrepancies_actions.go:12-202 | the played request is all or nothing, a success iff every call is done and every check holds, and a success leaves exactly what the request asks for |
| Workflow.CurrentIsLast | internal/store/event_store.go:148-165 | the current sequence is the number of the last event of the tenant's discrepancy |
| Workflow.SuccessIffPermitted | internal/api/handlers/discrepancies_actions.go:94-149 | the handlers' chain of checks succeeds exactly on the requests the machine permits |
| Listing.BuildListWhere | internal/store/discrepancy_store.go:112-158 | the compiled clauses select exactly the rows the filters and cursor describe, on every table; placeholder k stands for argument k and the returned index is one past the last |
| Listing.ListPage | internal/store/discrepancy_store.go:175-210 | the first `limit` matching rows below the cursor by (created_at, id) descending |
| Listing.ListCount | internal/store/discrepancy_store.go:162-172 | the number of matching rows, cursor or not |
| Listing.HandleList | internal/api/handlers/discrepancies.go:34-74 | every row on the page has the caller's tenant and each text the query gives, and lies below the cursor, in descending order; such a row is left out only of a full page of rows above it; a full page has the query's limit from 1 to 100, 100 above it and 25 otherwise; the total counts such rows above and below the cursor; a cursor iff the page is full |
| KeysetWalk.NoRowTwice | internal/store/discrepancy_store.go:149-156 | whatever changes between the pages, following cursors never returns a row twice |
| KeysetWalk.EverySteadyRowOnce | internal/api/handlers/discrepancies.go:63-67 | a walk to the empty cursor returns every row that matched at every page exactly once, even when a cursor row stops matching |
| KeysetWalk.PagesDescend | internal/store/discrepancy_store.go:175-210 | every later page lies below every earlier one |
| KeysetWalk.StaticWalk | internal/store/discrepancy_store.go:214-236 | on an unchanging table the pages together are the matching rows in order, their lengths add up to the total, and the walk takes total / limit + 1 requests |
| KeysetWalk.OneDescendingOrder | internal/store/discrepancy_store.go:179-190 | a set of rows has only one descending order |
| KeysetWalk.FollowCursors | internal/api/handlers/discrepancies.go:63-67 | a client that follows the handler's cursors over an evolving table makes such a walk, complete once a page gives no cursor |
| ServiceListing.RunsEvolve | internal/store/discrepancy_store.go:175-210 | between any two moments of any run no listed row goes or changes its tenant or creation time |
| ServiceListing.ServiceWalk | internal/api/handlers/discrepancies.go:63-67 | in every run of the service a client following cursors gets no row twice and, at the end, every row that matched at each of its requests |
| KeysetWalk.PageIgnoresDates | internal/api/handlers/discrepancies.go:138-145 | the page is the date-filtered one iff every wanted row out of the range has at least a page of wanted rows before it |
| KeysetWalk.OnPageIff | internal/store/discrepancy_store.go:175-210 | a wanted row is on the page iff fewer than `limit` wanted rows come before it |
| KeysetWalk.DateIsIgnored | internal/api/handlers/discrepancies.go:138-145 | an input: a table of one matching row, asked for later rows, is a page of one instead of none |
| KeysetWalk.TotalIgnoresDates | internal/api/handlers/discrepancies.go:31-33 | the total is the date-filtered one iff no matching row is out of the range |
| RuleUpdate.BuildRuleUpdateSets | internal/store/rule_store.go:138-173 | the SET clauses replace exactly the named fields of any row, placeholder k for argument k, no column twice; there are none iff nothing is named; an unencodable configuration is an error |
| RuleUpdate.SetBuilder.Add | internal/store/rule_store.go:132-136 | one more assignment, numbered by its argument and applied after the others; assignable if its column was not assigned yet |
| RuleUpdate.AssignedCells | internal/store/rule_store.go:190-197 | assignments to distinct columns can be read in any order: an assigned column holds its argument, any other what it held |
| RuleUpdate.UpdateRule | internal/store/rule_store.go:175-207 | only the row of that tenant and id changes, in the named fields and the time of change, and only to a row the schema accepts under a free name; otherwise nothing does: unknown row, unencodable configuration, schema refusal |
| RuleUpdate.SchemaAccepts | migrations/004_create_escalation_rules.up.sql:6-20 | the constraints accept exactly the rows with a known severity or the wildcard, a trigger status, an action, a name of at most 255 and 32-bit numbers |
| RuleUpdate.UpdatesKeepSchema | migrations/004_create_escalation_rules.up.sql:6-20 | updates keep the trigger statuses the engine relies on, unique names, and every other rule |
| RateLimit.RateLimiter.Serve | internal/api/middleware/ratelimit.go:51-73 | each request is decided as if only its own IP's requests had been made; in time order no minute holds more than 2N - 1 admissions of an IP, a rejection follows N admissions within the minute before it, and an IP's first request is admitted |
| RateLimit.NoMinuteOverfull | internal/api/middleware/ratelimit.go:51-73 | any decisions made that way meet that bound for every IP and every minute of the trace |
| RateLimit.NoIdleRejection | internal/api/middleware/ratelimit.go:64-67 | any decisions made that way reject only after N admissions of that IP in the minute before |
| RateLimit.AtMostTwiceMinusOne | internal/api/middleware/ratelimit.go:51-73 | any closed minute holds at most 2N - 1 admitted requests of one IP |
| RateLimit.WindowBounds | internal/api/middleware/ratelimit.go:56-72 | what a window's start and count say about the admissions in any minute |
| RateLimit.RejectionIsEarned | internal/api/middleware/ratelimit.go:64-67 | a rejection at t means N admissions of that IP within the minute up to t |
| RateLimit.RollingOnlyForOne | internal/api/middleware/ratelimit.go:26-29 | the bound 2N - 1 is reached, and the documented rolling window is kept iff N is 1 |
| HubRetry.HubClient.SendEvent | internal/notify/hub_client.go:86-133 | a disabled client makes no post and answers "skipped"; an enabled one posts until the first reply, a cancelled wait, or max(1, R) posts, and answers what its last post met |
| HubRetry.Retrier.RetryPending | internal/engine/notification_retry.go:63-84 | exactly the failed or retrying rows with fewer than R attempts are sent again, one after the other, each with its own posts; no other row changes; the posts of the rows grow by the posts the client makes |
| HubRetry.Retrier.RetryOne | internal/engine/notification_retry.go:87-153 | the row is sent once more with the posts the client makes meanwhile; if the update takes effect attempts rise by one and the row says sent iff the last post met a reply or the client is disabled, else failed when the attempts are used up and retrying before; a lost update leaves the row as it was |
| HubRetry.Retrier.SendFirst | internal/engine/escalation_notify.go:138-166 | the engine's send through the client: failed iff the last post met an error, pending for a "skipped" answer and a disabled client, sent otherwise |
| HubRetry.FirstSendIsActed | internal/engine/escalation_notify.go:16-49 | that row, its update not lost, is the one the engine's notify action leaves in the log, with one send |
| HubRetry.NestedRetryBound | internal/engine/notification_retry.go:86-153 | over any history every send is a counted attempt or a lost log update; attempts are at most max(1, R), and with L lost updates a notification costs at most (max(1, R) + L) * max(1, R) posts, the square when none is lost |
| HubRetry.BoundIsReached | internal/notify/hub_client.go:101-132 | a history that costs exactly that: for every R without a lost update, and for every R that allows retries and any number of lost ones |
| HubRetry.NoRetryOneSend | internal/store/notification_store.go:133-135 | with R at most one a notification is sent and posted at most once, whatever updates are lost |
| HubRetry.SentStays | internal/store/notification_store.go:125-143 | sent is never left |
| HubRetry.RetriesEnd | internal/store/notification_store.go:133-135 | once sent, a notification is not eligible after R - 1 passes and one more for each log update lost meanwhile |
| RagSync.RagSyncer.RunSync | internal/engine/rag_syncer.go:63-97 | one call is one clock reading and one query around whatever the service does in between: a successful query hands over exactly the rows then resolved or auto-closed at or after the window's start, each once, and moves the window to the reading; a failed one changes nothing |
| RagSync.DueIsClosed | internal/store/discrepancy_resolved.go:14-26 | the query selects exactly the rows resolved or auto-closed at or after the window's start |
| RagSync.HandedIffStampedInTime | internal/engine/rag_syncer.go:63-92 | service serial for the discrepancy: a closing is handed over by the first query that succeeds after it iff its resolved time is not older than the window's start then; otherwise never |
| RagSync.LateClosingIsLost | internal/api/handlers/discrepancies_actions.go:127-139 | a run from the start, serial and without failures, in which a sync passes between a resolve request's clock reading and its transaction: the closing is not handed over, in no serial continuation |
| RagSync.FirstQueryHandsOver | internal/store/discrepancy_resolved.go:14-26 | any run: the first query that succeeds hands a discrepancy over iff its resolved time then is not older than the window |
| RagSync.HandedTwicePerClosing | internal/engine/rag_syncer.go:63-97 | any run: a discrepancy is handed over at most twice for each time it was closed |
| RagSync.StaleWriteHandsOverThrice | internal/engine/escalation_actions.go:73-94 | a run from the start, not serial, in which a reopened discrepancy is handed over three times |
| RagSync.StampsAreOwn | internal/store/discrepancy_store.go:247-263 | a row's new resolved time is the one of the act that wrote it |
| RagSync.HandedAtMostTwice | internal/store/discrepancy_resolved.go:14-26 | service serial for the discrepancy: it is handed over at most twice, and never before it is closed |
| RagSync.WindowWaits | internal/engine/rag_syncer.go:67-71 | until a query succeeds, failed ones leave window and hand-overs alone |
| RagSync.OwnStampIsInTime | internal/engine/escalation_actions.go:135-141 | service serial, closing stamped at its own step: the first query that succeeds after it always hands it over |
| RagFeeder.Document | internal/engine/rag_feeder.go:78-115 | the document names the type of the last resolved or auto-closed event iff at most 49 events follow it and it has one, else "unknown"; without a readable log it says unknown |
| RagFeeder.ResolutionType | internal/engine/rag_feeder.go:105-115 | the backward scan finds the last closing event's type |
| RagFeeder.ResolutionsAreGiven | internal/api/handlers/discrepancies_actions.go:127-139 | in every run a resolved event carries the type some effective resolve request gave |
| RagFeeder.ResolutionSurvives | internal/engine/rag_feeder.go:78-115 | serial, any failure: the document of a resolved discrepancy names the type its resolve request gave iff at most 49 notes followed |
| TenantCache.TenantMiddleware.Handle | internal/api/middleware/tenant.go:45-88 | an answer rests on a usable entry whenever there is one, else on a look of its own: an active tenant is served under its id, an inactive one refused, a key without a tenant invalid, as of that look, which is no older than five minutes plus its duration; a failed look is answered as an unknown key; what a look found is cached |
| TenantCache.TenantMiddleware.GetFromCache | internal/api/middleware/tenant.go:112-124 | an entry is used exactly up to five minutes after it was kept, the last instant included |
| TenantCache.TenantMiddleware.SetCache | internal/api/middleware/tenant.go:127-136 | only what a successful lookup read is remembered |
| TenantCache.DeactivationTakesHold | internal/api/middleware/tenant.go:17-20 | a deactivated tenant is refused after the TTL and the lookup's duration |
| Report.Aggregate | internal/report/data.go:40-96 | every count is that of the rows (events) of its kind, the mean is over the rows with a resolved time, and only the event list is cut |
| Report.ReportAddsUp | internal/report/data.go:55-77 | the counts by status, severity and event type add up to the totals |
| Report.MeanOverClosed | internal/report/data.go:60-69 | for rows of any reachable state the mean is taken over exactly ByStatus[resolved] + ByStatus[auto_closed] rows |

## Left out

- HTTP routing, JSON decoding, required-field and length checks, error bodies: single-branch facts.
- The text of SQL statements: queries are clause records or predicates; pgx, NATS and PostgreSQL are the store contracts named above.
- Isolation of concurrent transactions: a transaction is one step, so two that interleave, and sequence numbers that become visible out of order, are not modelled; the code takes no row lock.
- Row ids, actors, event timestamps and the descriptive columns of events and discrepancies; float amounts; the float truncation of expected_sequence.
- Bodies of hub requests and replies, 5xx against 4xx inside doRequest, and backoff delays: a post is an error or a reply.
- An engine without a notification store or hub client: the service always wires both.
- Ingestion.FinishedWithinFour: needs readable delivery metadata; a message whose metadata cannot be read is never terminated by its count.
- KeysetWalk.EverySteadyRowOnce: a malformed cursor text, which the database refuses, is not modelled.
- Report.Aggregate: computes the mean in exact reals; the generator's limit of one page of 100 rows is outside it.
- TransitionTo, which only tests call, and the single-table queries of tenants, rules, reports, health and metrics.
- API key hashing, tickers, goroutine start and stop, logging, configuration, report files, templates, PDF conversion and cleanup.
