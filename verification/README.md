# Verification of the agent's approval gate, run ledger, conversation loop and knowledge index

This project states, in Dafny, what the parts of the DevOps agent that must not go wrong are for, and proves it.
`dafny verify dfyconfig.toml` checks all of it.

The agent may read infrastructure freely but may change it only after a human has said yes. Requests for that yes lie
in one SQLite table that several processes write to; runs are claimed from webhooks in a second table and worked off
by a small pool; a run is a conversation with a model, checkpointed so that a crash costs one turn; and what runs
teach is kept in a searchable index. Each of these is a module or a few:

- `Timestamps`: the text `isoformat()` writes, the instant it denotes, and why comparing one is comparing the other.
- `ApprovalTable`: the approvals table as SQL statements, each atomic, and what every statement keeps.
- `Linearization`, `Serialization`: `get`, `resolve` and `consume` cut into their statements, with any others run in
  between; one operation, then whole runs of them.
- `ApprovalStore`: the store as an object whose rows hold text, as the file does.
- `GateProtocol`, `GateSteps`, `GateProgress`: calls, reviewers, sweepers, clocks and crashes interleaved over the table
  at every statement; what never happens, what each step does, and that an approved call gets to execute.
- `GateWait`: asking when the notifier may fail, and polling against an adversary.
- `RunPool`, `RunManager`: the ledger, queue and workers as a step machine, and the objects that make its steps.
- `Transcripts`, `Recovery`: what conversation is left after an interruption, and a thread's life over any crashes.
- `ToolTurn`, `AgentLoop`: the tools of one turn, event by event, and the loop.
- `FullText`, `Knowledge`, `RankFusion`: the trigger-maintained index, who may vouch for a document, and fused search.
- `Truncation`: the character budget tool results share.

The main results are `GateProtocol.OneYesOneExecution`, `GateProgress.ApprovedCallExecutes`,
`Serialization.RunsAreSerializable`, `Timestamps.TextOrderIsTimeOrder`, `RunPool.FinishedStaysFinished`,
`RunPool.StartAccountsForEveryRun`, `Recovery.NoCallIsForgotten`, `AgentLoop.CallsAreSteps`, `ToolTurn.RunTools`,
`FullText.FTSKnowledgeIndex.Search`, `Knowledge.RunsAreVerifiedByHumansOnly` and `RankFusion.AgreementThreshold`.

## Assumptions

- A single SQL statement is atomic and durable, and statements do not fail for reasons of storage.
- Argument fingerprints and document digests are injective. Ids are arbitrary: a collision is refused by the primary key
  of the approvals table.
- Datetimes are aware and in UTC, as the default clock makes them.
- In `GateWait` the clock does not go back and a sleep lasts at least as long as asked; `poll_interval` is positive.
- In `RunPool` a manager is started once, and the runs the main results speak of start it before anything is submitted,
  as `src/agentic_devops/triggers/app.py:371` does; `StartIsSafeExactlyWhenFirst` says that they must.
- In `Recovery` checkpoints are saved, and a `pause_turn` reply makes no client tool calls.

## Where the code and its words differ

The code is followed in each case.

- `store.py:182-183` says a request is never observed as pending past its deadline. `get` expires and reads in two
  statements, so a request inserted by another process between them, already overdue, is. `GetIsAtomic` says exactly
  when, and `LateCreationIsVisible` is an instance. A request that existed when `get` began is never so observed.
- `store.py:230-231` says a conflict carries the request's real state, that is why the decision did not take. A request
  created while `resolve` runs can come back in a conflict and be pending: `ResolveIsAtomic` says exactly when, and
  `ConflictWithPending` is an instance.
- `runs.py:348-349` and `README.md:241` say a delivery refused for a full queue gets a fresh chance when it is retried.
  Its row stays claimed, so it is never run: `RefusedForGood`.
- `gate.py:107` says a request whose notifier fails is rejected. A reviewer may have decided it by then, and that
  decision stands: `RaisedYetApproved` is the case, `RefusedExactlyWhenPending` the exact condition, and
  `PendingIsRefused` what holds whatever others do.
- `policy.py:115` calls forbidden tools those nobody may run through the agent. The list is consulted by the gate alone,
  so one that policy clears, as read-only for instance, is run without it: `ForbiddenRunsExactlyWhenCleared`.
- `loop.py:156` says a crash costs one turn. A reopened incident is a new delivery for the same thread
  (`events.py:47-50`), its run starts afresh and its first reply overwrites the transcript, so a call cut off by a crash
  before it is forgotten: `FirstCallForgotten` is the case. `ToldExactlyWhenResumed` is the exact condition: the call is
  told if and only if the thread is resumed. Until it is run afresh, it stays told: `BegunIsToldUntilRunAgain`.
- `runs.py:416` says `drain` stops accepting. `submit` does not look whether it has, and what is accepted between the
  count's reaching zero and the join's return is left behind: `LateWorkIsLeftBehind`, exactly then: `JoinIsQuietExactly`.
- `knowledge.py:173-175` says a document two indexes like beats one that only one loves. With two indexes and the usual
  constant that holds for every limit up to 20 and for none above: `TwoIndexesUpToTwenty`.
- `learn.py:8-11` leaves verifying to a human. Recording the same run again takes the human's mark away:
  `RunsAreVerifiedByHumansOnly` says exactly when it is there, `RecordingAgainUnverifies` is the case.
- `toolset.py:91` is right about every limit that is not negative. `CountsAddUpExactly` has the condition.
- `consume` has no deadline check. The deadline binds the decision, not the spending, and is stated of the decision.

## Model

| member | source | states |
|---|---|---|
| `Timestamps.TextOrderIsTimeOrder` | src/agentic_devops/approval/store.py:80-81 | For all UTC datetimes, stored text compares as the instants do (strictly and weakly), and equal text, equal instant and equal datetime are the same thing, although a zero fraction is left out of the text |
| `Timestamps.IsoOrderIsFieldOrder` | src/agentic_devops/approval/store.py:80-81 | The text order is the lexicographic order of year, month, day, hour, minute, second, microsecond |
| `Timestamps.FieldTextOrder` | src/agentic_devops/approval/store.py:80-81 | For any two texts of the same fixed-width fields and separators, the text order is the field order, and only equal fields let the tails decide |
| `Timestamps.PadOrder` | src/agentic_devops/approval/store.py:80-81 | Zero-padded decimals of one width compare as text exactly as the numbers do, and are equal only for equal numbers |
| `Timestamps.TailOrder` | src/agentic_devops/approval/store.py:80-81 | Printed microseconds compare as numbers even when the fraction is dropped for zero, because `+` sorts before `.` |
| `Timestamps.FieldOrderIsInstantOrder` | src/agentic_devops/approval/models.py:104-105 | A datetime that is earlier field by field is an earlier instant, across months of every length and leap years |
| `Timestamps.DayOrder` | src/agentic_devops/approval/models.py:104-105 | A smaller calendar date is a smaller day number, with the leap-year rule |
| `Timestamps.ParseUndoesIso` | src/agentic_devops/approval/store.py:84-85 | Reading a stored timestamp gives back exactly the datetime that was written, with and without a fraction |
| `Timestamps.IsoText` | src/agentic_devops/approval/store.py:80-81 | The stored text is year-month-day T hour:minute:second, zero-padded, then the microseconds unless they are zero, then +00:00 |
| `Timestamps.PadDigits` | src/agentic_devops/approval/store.py:80-81 | Padding writes decimal digits, of the width asked for |
| `Timestamps.MonthsOfTheYear` | src/agentic_devops/approval/models.py:104-105 | The months have the Gregorian calendar's days |
| `Timestamps.DaysOfTheYear` | src/agentic_devops/approval/models.py:104-105 | A year has 365 days, a leap year 366 |
| `Timestamps.MicrosecondsOfTheDay` | src/agentic_devops/approval/models.py:104-105 | An instant counts microseconds: of its day's time, and 86 400 seconds for each day before |
| `ApprovalTable.DeadlineGuards` | src/agentic_devops/approval/store.py:236-250 | The text guard that expires a request is `is_overdue` on the clock, and on a pending request the guard that lets a decision in is its exact complement |
| `ApprovalTable.ExecEvolves` | src/agentic_devops/approval/store.py:141-317 | No statement removes a row, rewrites tool, arguments, fingerprint, request time or deadline, returns a status to pending, leaves a final status, or changes a decision without changing the status; a spent row keeps its reviewer |
| `ApprovalTable.ExecKeepsAudit` | src/agentic_devops/approval/store.py:190-317 | Every statement keeps the audit rule: pending has no decision; approved and consumed were decided before the deadline by someone; expired was decided by system at or after it; rejected was decided in time or burned for changed arguments |
| `ApprovalTable.WhatItTakes` | src/agentic_devops/approval/store.py:236-310 | Only a spending consumes a row, only a decision that matches approves one, and only a burning takes an approval back |
| `ApprovalTable.RunEvolves` | src/agentic_devops/approval/store.py:179-317 | Between any two points of any run of statements, every row stays and only moves forward |
| `ApprovalTable.RunKeepsAudit` | src/agentic_devops/approval/store.py:190-317 | Every row of every reachable table satisfies the audit rule |
| `ApprovalTable.AtMostTwoStatusChanges` | src/agentic_devops/approval/models.py:24-38 | Over any run a row's status changes at most twice, and no more often than its first and last status allow |
| `ApprovalTable.UnmatchedExec` | src/agentic_devops/approval/store.py:236-252 | A conditional update whose row count is zero leaves the whole table as it was |
| `ApprovalTable.InsertWrites` | src/agentic_devops/approval/models.py:84-99 | A new row is pending and has just the tool, arguments, their fingerprint, and the times it was asked with; a used id is refused and no other row changes |
| `ApprovalTable.AttachWrites` | src/agentic_devops/approval/store.py:171-177 | The reference of that row is set, and nothing else |
| `ApprovalTable.ExpiryWrites` | src/agentic_devops/approval/store.py:190-208 | Exactly a pending row in scope at or past its deadline becomes expired, then, by system, with the timeout's note, all else as it was |
| `ApprovalTable.DecisionWrites` | src/agentic_devops/approval/store.py:233-251 | Exactly a pending row inside its deadline gets the status asked for, the time, the reviewer and the note as given; nothing else changes |
| `ApprovalTable.BurningWrites` | src/agentic_devops/approval/store.py:282-297 | Exactly an approved row becomes rejected, then, by system, with that note; nothing else changes |
| `ApprovalTable.SpendingWrites` | src/agentic_devops/approval/store.py:303-310 | Exactly an approved row becomes consumed, its decision kept; nothing else changes |
| `ApprovalTable.ChangesAreCounted` | src/agentic_devops/approval/models.py:24-38 | The number of status changes of a row in a run is the number of statements that change it |
| `Linearization.ConsumeIsAtomic` | src/agentic_devops/approval/store.py:264-317 | With anything at all run between its statements, `consume` has the effect and the verdict of one atomic consume at its update, and its reads change nothing |
| `Linearization.ResolveIsAtomic` | src/agentic_devops/approval/store.py:217-262 | With anything run between its statements, `resolve` has the effect and the verdict of one atomic resolve at one of them if and only if the request was not created after the decision was tried and read before anybody decided it |
| `Linearization.ResolveActsAtomically` | src/agentic_devops/approval/store.py:217-262 | In every case the table passes through one atomic resolve, which succeeds exactly when the code does |
| `Linearization.ConflictWithPending` | src/agentic_devops/approval/store.py:255-262 | A run in which `resolve` reports a conflict that carries a pending request |
| `Linearization.DecidedMeanwhile` | src/agentic_devops/approval/store.py:255-262 | A request created and decided by others meanwhile is an atomic conflict at the read |
| `Linearization.DecidingIsAtomic` | src/agentic_devops/approval/store.py:236-253 | A decision that took is the atomic decision at the moment of its update, and the row it returns has only moved forward since |
| `Linearization.ConflictingIsAtomic` | src/agentic_devops/approval/store.py:255-262 | A decision that did not take is an atomic conflict at the expiry, and the update before it changed nothing |
| `Linearization.AbsentIsAtomic` | src/agentic_devops/approval/store.py:255-262 | A decision on an id that is not there changes nothing and does not succeed; it is the atomic not-found if and only if the id is still not there at the read |
| `Linearization.MissedDecisionStaysMissed` | src/agentic_devops/approval/store.py:255-262 | If a decision did not take then, however the table has moved on, it does not take later, and expiring leaves the request decided |
| `Linearization.ResolveMeaning` | src/agentic_devops/approval/store.py:228-262 | An atomic resolve succeeds exactly for a pending request strictly inside its deadline, and then the row has the status, time, reviewer and note given and nothing else changes; otherwise the caller gets the request as it stands, denied if its time is up and never pending |
| `Linearization.GetMeaning` | src/agentic_devops/approval/store.py:179-188 | An atomic get returns the row as it is, or denied if its time is up, and changes nothing else |
| `Linearization.ConsumeMeaning` | src/agentic_devops/approval/store.py:279-317 | An atomic consume spends exactly an approval for these arguments, takes back one for others, and otherwise changes nothing and reports the row |
| `Linearization.GetIsAtomic` | src/agentic_devops/approval/store.py:179-188 | `get` has the effect and verdict of an atomic get at one of its statements if and only if the request was not created, already overdue, between them; a request that existed is never read pending past its deadline |
| `Linearization.LateCreationIsVisible` | src/agentic_devops/approval/store.py:182-188 | A run in which `get` returns a pending request one second past its deadline |
| `Serialization.RunsAreSerializable` | src/agentic_devops/approval/store.py:141-317 | Any interleaving of any number of store operations is serializable if and only if no operation is surprised by a request created under it: then, and only then, some order of the operations, each once and in keeping with real time, gives every caller the verdict it was told and leaves the same table when they run whole, one at a time |
| `Serialization.UnsurprisedSerialize` | src/agentic_devops/approval/store.py:141-317 | The order, for runs in which nobody is surprised |
| `Serialization.SurpriseFitsNowhere` | src/agentic_devops/approval/store.py:179-262 | What a surprised operation told its caller it would tell on no table at all, run whole |
| `Serialization.OrderIsTheRun` | src/agentic_devops/approval/store.py:141-317 | At every point of the run its table is that of the operations ordered so far, each run whole |
| `Serialization.SomePoint` | src/agentic_devops/approval/store.py:179-317 | Each operation that is not surprised has a statement at which all of it happens |
| `ApprovalStore.ReadUndoesWrite` | src/agentic_devops/approval/store.py:112-129 | A row read back is the request that was written, timestamps included |
| `ApprovalStore.RowByRow` | src/agentic_devops/approval/store.py:190-208 | Rewriting each text row as the statement says is executing the statement on the requests the rows denote, whatever order the rows are taken in |
| `ApprovalStore.ExpiringOneRow` | src/agentic_devops/approval/store.py:193-204 | On one row of text the sweep's guard is `is_overdue` of the request it denotes, and stamping it is the statement |
| `ApprovalStore.SQLiteApprovalStore.Create` | src/agentic_devops/approval/store.py:141-169 | A new id gets the request and nothing else changes; a used id is refused and nothing changes |
| `ApprovalStore.SQLiteApprovalStore.AttachNotification` | src/agentic_devops/approval/store.py:171-177 | Exactly the notification reference of that request is set, spelled out |
| `ApprovalStore.SQLiteApprovalStore.Fetch` | src/agentic_devops/approval/store.py:131-137 | The request under the id, or nothing exactly when there is none |
| `ApprovalStore.SQLiteApprovalStore.ExpireOverdueLocked` | src/agentic_devops/approval/store.py:190-208 | Exactly the pending requests in scope whose time is up become expired, then, by system, with the timeout's note, all else as it was; the count is their number |
| `ApprovalStore.SQLiteApprovalStore.ExpireOverdue` | src/agentic_devops/approval/store.py:210-215 | After a sweep no request is overdue, and the count is the number that were |
| `ApprovalStore.SQLiteApprovalStore.Get` | src/agentic_devops/approval/store.py:179-188 | Not-found exactly for a missing id, otherwise the request, denied if its time is up and never pending past its deadline; no other row changes |
| `ApprovalStore.SQLiteApprovalStore.DecideLocked` | src/agentic_devops/approval/store.py:236-251 | The row count is one exactly when the request is pending inside its deadline, and then the row has the status, time, reviewer and note given, all else as it was |
| `ApprovalStore.SQLiteApprovalStore.Resolve` | src/agentic_devops/approval/store.py:217-262 | Success exactly for a pending request inside its deadline, whose row then has the status, time, reviewer and note given; a conflict carries the request as it stands, denied if its time is up and never pending; no other row or field changes |
| `ApprovalStore.SQLiteApprovalStore.BurnLocked` | src/agentic_devops/approval/store.py:282-297 | Exactly an approved request becomes rejected, then, by system, with that note; nothing else changes |
| `ApprovalStore.SQLiteApprovalStore.SpendLocked` | src/agentic_devops/approval/store.py:303-310 | The row count is one exactly when the request was approved, and then it is consumed, its decision kept |
| `ApprovalStore.SQLiteApprovalStore.Consume` | src/agentic_devops/approval/store.py:264-317 | Success exactly for an approval with this fingerprint, which is then consumed with its decision kept; a mismatch takes an approval back; anything else changes nothing; the row returned is the row as it then stands |
| `GateProtocol.OneYesOneExecution` | src/agentic_devops/approval/gate.py:250-322 | Over every interleaving of calls, reviewers, sweepers, clock readings and crashes, each gated execution has a reviewer's yes of its own, for the same tool and arguments, given before the deadline; no request is executed twice and none is approved twice |
| `GateProtocol.StepKeepsInv` | src/agentic_devops/approval/gate.py:96-322 | Each single statement or crash keeps: a live call holds the one request it inserted; only its comparison lets it spend; what was spent is consumed and executed at most once; every approved or consumed row has a recorded yes |
| `GateProtocol.RunKeepsInv` | src/agentic_devops/approval/gate.py:96-322 | That invariant holds after every run from an empty table |
| `GateProtocol.StepKeepsOwnership` | src/agentic_devops/approval/gate.py:269-276 | A call only ever acts on the request it inserted itself, and no two calls have the same one |
| `GateProtocol.StepKeepsSpendings` | src/agentic_devops/approval/gate.py:301-322 | A call about to execute has consumed its own request for the arguments it will run with, and nobody has executed on it |
| `GateProtocol.StepKeepsExecutions` | src/agentic_devops/orchestration/registry.py:100-131 | Executions rest on consumed requests of their own, no two on one |
| `GateProtocol.StepKeepsApprovals` | src/agentic_devops/approval/store.py:217-262 | Each yes that took is recorded in its row for good, once, inside the deadline, and every approved or consumed row has one |
| `GateProtocol.ExecutionAuthorized` | src/agentic_devops/approval/gate.py:235-248 | In any state that keeps the invariant, an execution's consumed row leads to the yes that authorized it |
| `GateProtocol.StepStatus` | src/agentic_devops/approval/store.py:236-317 | Only a call about to spend makes a row consumed, and only a reviewer's yes inside the deadline makes one approved |
| `GateProtocol.TowardsExecution` | src/agentic_devops/approval/gate.py:301-322 | The only way to an execution is compare, then spend, then confirm, on one request |
| `GateProtocol.PolicyRoutesEveryCall` | src/agentic_devops/orchestration/registry.py:68-106 | Nothing forbidden is ever executed through the gate, and what runs without it is in the catalog, is no listed write tool, is not flagged destructive, and was cleared by policy or its read-only hint |
| `GateProtocol.ForbiddenRunsExactlyWhenCleared` | src/agentic_devops/orchestration/registry.py:100-131 | A forbidden tool is run in some run of the system if and only if it is in the catalog and policy clears it, so that it never comes to the gate |
| `GateProtocol.DeadRequestsAreNeverSpent` | src/agentic_devops/approval/gate.py:269-276 | A request whose call has crashed or ended without spending it is never consumed or executed afterwards, even if a reviewer approves it |
| `GateSteps.GatedExactly` | src/agentic_devops/approval/policy.py:125-139 | A call is gated if and only if its tool is not in the catalog, is flagged destructive, is a listed write tool, or is neither listed nor hinted read-only while unknown tools need approval |
| `GateSteps.AskRecords` | src/agentic_devops/approval/gate.py:111-120 | A gated call that is not forbidden drafts a request with its tool and its arguments, now |
| `GateSteps.InsertRecords` | src/agentic_devops/approval/gate.py:121-121 | The row inserted has the draft's tool, arguments, fingerprint and times; a used id ends the call |
| `GateSteps.RequestsCarryWhatWasAsked` | src/agentic_devops/approval/models.py:84-99 | In every reachable world each live call's request has the tool, the arguments and the fingerprint the call asked with |
| `GateSteps.UnchangedArgs` | src/agentic_devops/orchestration/registry.py:80-109 | In every run in which nobody changes a call's arguments it would run with those it asked with |
| `GateSteps.DeniedByDefault` | src/agentic_devops/approval/store.py:190-208 | A call that polls past the deadline has its request expired by system |
| `GateSteps.ReadingLeads` | src/agentic_devops/approval/gate.py:272-276 | A call that reads its request waits on if it is pending, goes past the gate if it is approved, and otherwise ends |
| `GateSteps.NoticeIsKept` | src/agentic_devops/approval/gate.py:136-141 | The notice's reference is stored if there is one, and the call goes on to wait |
| `GateSteps.FailingRefuses` | src/agentic_devops/approval/gate.py:143-153 | Failing closed rejects a request pending in time, by system with the note, and ends the call; any other it leaves and looks at |
| `GateSteps.ComparisonLeads` | src/agentic_devops/approval/store.py:281-282 | The arguments the call would run with are compared with those approved: the same lead to spending, others to burning |
| `GateSteps.BurningEnds` | src/agentic_devops/approval/store.py:282-301 | Burning takes back exactly an approval and ends the call without executing |
| `GateSteps.ReviewRecords` | src/agentic_devops/approval/store.py:217-262 | A reviewer's answer in time is recorded as it was given; any other changes nothing |
| `GateSteps.SweepDenies` | src/agentic_devops/approval/store.py:210-215 | A sweep expires whatever is overdue and nothing else |
| `GateSteps.OneExpires` | src/agentic_devops/approval/store.py:255-256 | Anyone may have one overdue request expired |
| `GateSteps.CrashEndsTheCall` | src/agentic_devops/approval/gate.py:235-238 | A crash ends the call where it is and touches no request |
| `GateSteps.ArgsMayChange` | src/agentic_devops/approval/store.py:273-277 | Up to the comparison a call's arguments may become any others, its request staying as it is |
| `GateProgress.ApprovedCallExecutes` | src/agentic_devops/approval/gate.py:130-276 | In every run of the system a call that still has the arguments it asked with, and whose request gets a yes in time, while its reviewers are being told, while the gate fails closed or while it waits, has executed exactly once with these arguments, which are the row's, or can make another step of its own, and makes at most eight, whatever steps others make in between |
| `GateProgress.CourseIsKept` | src/agentic_devops/approval/gate.py:130-322 | From the yes on, every run of others' steps and its own keeps the call on its way, and each step of its own brings it at least one nearer |
| `GateProgress.CourseLeadsToExecution` | src/agentic_devops/approval/gate.py:130-322 | From any state in which a call is on its way, it has executed exactly once as soon as it has made all the steps it had left, and until it has executed it can go on |
| `GateProgress.AlwaysLooked` | src/agentic_devops/approval/gate.py:269-276 | In every reachable state a call past the gate has a decided request |
| `GateProgress.NeverStuck` | src/agentic_devops/approval/gate.py:130-322 | Until it has executed, there is always a step the call can make |
| `GateProgress.OthersKeepStatus` | src/agentic_devops/approval/store.py:236-317 | Nothing others do takes an approval or a spending away from the call that owns the request |
| `GateWait.ApprovalGate.Wait` | src/agentic_devops/approval/gate.py:155-182 | Giving up no earlier than the request expires, waiting ends with a decided request, at the first read that finds it decided and after at most one read more than the polls that fit before it expires, whatever others do between any two statements; the waiter itself does nothing to the table but expire that request |
| `GateWait.WaitingEndsExactly` | src/agentic_devops/approval/gate.py:162-167 | Waiting for a pending request ends under every fair clock if and only if the limit is not before the request expires |
| `GateWait.EarlyDeadlineSpins` | src/agentic_devops/approval/gate.py:162-166 | With an earlier limit, a clock that stands still at it makes the waiter read without end |
| `GateWait.PendingIsEarly` | src/agentic_devops/approval/gate.py:157-167 | A request still pending after n turns was read before it expired, and the turns took n polls |
| `GateWait.ApprovalGate.FailClosed` | src/agentic_devops/approval/gate.py:143-153 | Whatever others do between its statements, the request comes back decided: refused by system with the note if it was pending inside its deadline, and otherwise as others or the deadline decided it |
| `GateWait.ApprovalGate.Ask` | src/agentic_devops/approval/gate.py:96-141 | A used id is refused and nothing written. The row has the tool, arguments, fingerprint and times asked with. If the notifier raises, the request comes back decided, and refused by system with the note if it was still pending inside its deadline; if it does not, the request comes back pending with its reference |
| `GateWait.ClosedIsDecided` | src/agentic_devops/approval/gate.py:143-153 | With anything run between its statements, failing closed leaves the request decided and every row moved only forward |
| `GateWait.PendingIsRefused` | src/agentic_devops/approval/gate.py:105-110 | Whatever others do then, a request still pending inside its deadline comes back rejected by system, then, with that note |
| `GateWait.RefusedExactlyWhenPending` | src/agentic_devops/approval/gate.py:143-153 | Undisturbed, the request comes back newly rejected if and only if it is pending inside its deadline, and unchanged if and only if it was decided |
| `GateWait.RaisedYetApproved` | src/agentic_devops/approval/gate.py:132-134 | A notifier that raises after a reviewer's yes in time: the request comes back approved |
| `GateWait.ReadAfterExpiry` | src/agentic_devops/approval/store.py:185-188 | A request read by `get` at or past its deadline is decided, whatever ran in between |
| `GateWait.PollsSuffice` | src/agentic_devops/approval/gate.py:162-167 | That many full sleeps before the deadline are fewer than the polls, rounded up, that fit before it |
| `GateWait.PollsReachIt` | src/agentic_devops/approval/gate.py:162-167 | That many polls reach the deadline and one fewer does not |
| `GateWait.SleepsNoLonger` | src/agentic_devops/approval/gate.py:163-167 | A sleep is a poll, or what is left before the limit if that is less; past the limit there is none |
| `RunPool.FinishedStaysFinished` | src/agentic_devops/triggers/runs.py:183-241 | Over every run of submissions, workers, cancellations, drains, crashes and restarts in which managers are started first, no row is lost and no finished row is ever written again, although no update checks the status |
| `RunPool.StepKeepsFinished` | src/agentic_devops/triggers/runs.py:183-241 | In any state that keeps the invariant, no step's update touches a finished row |
| `RunPool.StepKeepsInv` | src/agentic_devops/triggers/runs.py:327-433 | Each step keeps: queued rows are exactly the queue, each key once; running rows are in a worker's hands; busy workers have distinct active keys; the unfinished count is queue plus active; work starts in accepted order and nothing refused starts |
| `RunPool.RunKeepsInv` | src/agentic_devops/triggers/runs.py:327-433 | That invariant holds after every sequence of steps |
| `RunPool.StartsAtMostOnce` | src/agentic_devops/triggers/runs.py:144-172 | No delivery starts twice in the life of the ledger, and within a process runs start in the order they were accepted |
| `RunPool.DuplicateChangesNothing` | src/agentic_devops/triggers/runs.py:330-343 | A key that was ever claimed is a duplicate for good, and submitting it changes nothing |
| `RunPool.RefusedForGood` | src/agentic_devops/triggers/runs.py:345-357 | A delivery refused for a full queue keeps the rejected row the refusal left through everything that follows, each retry of it changes nothing, and it is never run |
| `RunPool.Ceiling` | src/agentic_devops/triggers/runs.py:301-313 | In every reachable state active runs are within the workers, and with a positive queue size the queue is within it and the live process's unfinished rows within their sum |
| `RunPool.JoinedIsQuiet` | src/agentic_devops/triggers/runs.py:425-426 | If nothing is submitted from the start of a drain on, then when the queue's join returns the queue and the active map are empty and no row is queued or running |
| `RunPool.LateWorkIsLeftBehind` | src/agentic_devops/triggers/runs.py:425-430 | Work accepted after the count reached zero and before the join returned is left in the queue, its row queued, and the workers are cancelled |
| `RunPool.JoinIsQuietExactly` | src/agentic_devops/triggers/runs.py:425-426 | With the count at zero and the join about to return, one more step leaves the joined pool quiet if and only if it is not the submission of a new delivery |
| `RunPool.ZeroIsQuiet` | src/agentic_devops/triggers/runs.py:361-369 | The count is zero if and only if nothing is queued or active and no row of the ledger is queued or running |
| `RunPool.DrainLeavesNothingBehind` | src/agentic_devops/triggers/runs.py:415-433 | A drain during which nothing is submitted and which does not time out leaves no row queued or running, and neither cancelling the workers nor any crash or restart after it writes to the ledger |
| `RunPool.StartAccountsForEveryRun` | src/agentic_devops/triggers/runs.py:304-313 | After any history, timed-out drains and crashes included, the next start makes each queued or running row interrupted, then, with the restart's error and all else as it was, leaves every other row, and each row keeps for good what it then has |
| `RunPool.ReclaimWrites` | src/agentic_devops/triggers/runs.py:224-241 | Exactly the queued and running rows become interrupted, then, with the restart's error; everything else stays |
| `RunPool.StartWrites` | src/agentic_devops/triggers/runs.py:304-313 | A start reclaims the ledger and sets the configured number of workers waiting |
| `RunPool.SubmitWrites` | src/agentic_devops/triggers/runs.py:327-359 | A known key changes nothing; a new one is queued while there is room, and otherwise its row is rejected as the queue is full |
| `RunPool.CrashLoses` | src/agentic_devops/triggers/runs.py:224-227 | A crash loses the process and nothing of the ledger, also between the claim and the queue |
| `RunPool.StartMustComeFirst` | src/agentic_devops/triggers/runs.py:224-241 | In a run of the pool, a start after a submission marks the queued run interrupted, and the worker that takes it writes over that |
| `RunPool.StartIsSafeExactlyWhenFirst` | src/agentic_devops/triggers/runs.py:304-313 | Finished runs stay finished in every run after a start if and only if nothing had been submitted before it |
| `RunPool.CancelInterrupts` | src/agentic_devops/triggers/runs.py:383-389 | Cancelling a working worker records its run as interrupted, takes it off the active map and settles one unfinished task, and touches no other row |
| `RunPool.SubmitKeepsInv` | src/agentic_devops/triggers/runs.py:327-359 | Accepting, refusing and deduplicating each keep the pool's invariant |
| `RunPool.TakeKeepsInv` | src/agentic_devops/triggers/runs.py:361-374 | Moving a key from the queue to a worker keeps it |
| `RunPool.FinishKeepsInv` | src/agentic_devops/triggers/runs.py:390-407 | Recording an outcome keeps it while the worker still reports |
| `RunPool.RetireKeepsInv` | src/agentic_devops/triggers/runs.py:367-369 | Leaving the active map and settling the task keeps it, after a report or a cancellation |
| `RunManager.RunLedger.ClaimDelivery` | src/agentic_devops/triggers/runs.py:144-181 | The claim succeeds exactly for a key never seen, whose row is then queued with this run and time and no report; nothing else changes |
| `RunManager.RunLedger.MarkRunningRow` | src/agentic_devops/triggers/runs.py:191-194 | No other row changes, nor the run's id, claim time, end or report; finished runs are kept if and only if there is none under the key |
| `RunManager.RunLedger.MarkFinishedRow` | src/agentic_devops/triggers/runs.py:196-214 | No other row changes, nor the run's id, claim or start time; finished runs are kept if and only if there is none under the key or it is given what it has |
| `RunManager.RunLedger.MarkRejectedRow` | src/agentic_devops/triggers/runs.py:216-222 | No other row changes, nor the run's numbers and summary; finished runs are kept if and only if there is none under the key or it is given what it has |
| `RunManager.KeptExactlyWhenSafe` | src/agentic_devops/triggers/runs.py:183-189 | An update of one key keeps every finished run if and only if the run under that key is not finished or stays as it is |
| `RunManager.RunLedger.ReclaimInterrupted` | src/agentic_devops/triggers/runs.py:224-241 | Exactly the queued and running rows become interrupted, then, with the restart's error and all else as it was; the count is their number |
| `RunManager.Manager.constructor` | src/agentic_devops/triggers/runs.py:287-302 | A new manager of any queue size over any ledger earlier processes can have left is valid, with nothing queued or active |
| `RunManager.Manager.StartUp` | src/agentic_devops/triggers/runs.py:304-313 | Each queued or running row becomes interrupted, then, with the restart's error and all else as it was; every other row stays; the manager is valid after it if and only if nothing was submitted before it |
| `RunManager.Manager.SubmitDelivery` | src/agentic_devops/triggers/runs.py:327-359 | Before or after the start, a known key is answered with its first run and changes nothing; a new one is queued, with a queued row, exactly when there is room, always if the size is not positive, and otherwise gets a rejected row; the manager stays valid |
| `RunManager.Manager.TakeNext` | src/agentic_devops/triggers/runs.py:361-373 | The oldest queued run begins, which never began before and is in nobody's hands; only its row changes, to running from then; the accepted runs are those begun, in order, and the queue |
| `RunManager.Manager.RecordInterruption` | src/agentic_devops/triggers/runs.py:383-389 | A cancelled run's row, and no other, goes from running to interrupted |
| `RunManager.Manager.Conclude` | src/agentic_devops/triggers/runs.py:390-407 | Only that row changes: failed with the error if the agent raised, otherwise the agent's report, halted exactly if it gives a reason |
| `RunManager.Manager.ReleaseSlot` | src/agentic_devops/triggers/runs.py:367-369 | The active map loses exactly this run, and the count is again queue plus active |
| `RunManager.Manager.CancelSlot` | src/agentic_devops/triggers/runs.py:383-389 | A run the worker was working on becomes interrupted with that error, leaves the active map and settles one task; cancelling a reporting or idle worker changes no run |
| `RunManager.Manager.BeginDrain` | src/agentic_devops/triggers/runs.py:422-425 | Before the start or after a drain it changes nothing; otherwise it waits exactly if there are workers, touches no run, and may join at once exactly if nothing is queued or active |
| `RunManager.Manager.EndJoin` | src/agentic_devops/triggers/runs.py:425-428 | The wait ends by timeout or once the count has been zero since the drain began; if it is still zero nothing is queued, active or in flight |
| `RunManager.Manager.CancelAll` | src/agentic_devops/triggers/runs.py:429-432 | The end of a drain: no active run, no running row, finished rows as they were, and any queued row is still in the queue |
| `Transcripts.PrepareResume` | src/agentic_devops/memory/transcripts.py:86-125 | Both loops compute the recursive specification of the kept messages and of the note, on every input |
| `Transcripts.KeepsLongestPrefix` | src/agentic_devops/memory/transcripts.py:98-115 | Of a transcript that starts with a user message, what is kept is the longest prefix that does not end in an unanswered call, and it is not empty |
| `Transcripts.NoteNamesWhatWasDropped` | src/agentic_devops/memory/transcripts.py:98-125 | What is dropped is a suffix; the note names exactly the calls in it, as often as they were made; there is no note exactly when nothing was dropped |
| `Transcripts.PrepareIsIdempotent` | src/agentic_devops/memory/transcripts.py:86-125 | Preparing what was prepared changes nothing and reports nothing |
| `Transcripts.NoteMentions` | src/agentic_devops/memory/transcripts.py:119-125 | Every name the note is about stands in its text, in backquotes |
| `Transcripts.CallsAreTheToolUses` | src/agentic_devops/memory/transcripts.py:102-106 | The calls of a message are its tool-use blocks, all of them, in order |
| `Transcripts.FromFirstUserSkips` | src/agentic_devops/memory/transcripts.py:112-115 | Exactly the messages before the first one from the user go |
| `Transcripts.QuotedText` | src/agentic_devops/memory/transcripts.py:119-122 | The names are in backquotes with commas between |
| `Transcripts.NoteText` | src/agentic_devops/memory/transcripts.py:119-125 | The note around the names, word for word |
| `Transcripts.AppendExchange` | src/agentic_devops/orchestration/loop.py:309-312 | A well-formed conversation stays well formed when a reply and the results of all its calls are added |
| `Transcripts.AppendTalk` | src/agentic_devops/orchestration/loop.py:305-307 | It stays well formed when a reply without calls is added |
| `Transcripts.AppendProse` | src/agentic_devops/orchestration/loop.py:193-200 | It stays well formed when a user's text is added |
| `Transcripts.SendableDoesNotDangle` | src/agentic_devops/memory/transcripts.py:98-115 | A well-formed conversation ends in no call, and preparing it keeps all of it |
| `Recovery.NoCallIsForgotten` | src/agentic_devops/orchestration/loop.py:182-209 | Whatever runs, crashes and resumes came before, every request the model was ever sent is well formed, and at the place of every tool call begun before in the same run of the thread it has either the call and its result, or a note that names the call |
| `Recovery.BegunIsToldUntilRunAgain` | src/agentic_devops/orchestration/loop.py:166-209 | A call once begun is told in every later request, through any crashes and resumes, until the thread is run afresh |
| `Recovery.FreshRunForgets` | src/agentic_devops/memory/transcripts.py:175-189 | From any state of a thread that is not running, what `run` asks first is the opening alone, and no call the thread ever began is told in it |
| `Recovery.ToldExactlyWhenResumed` | src/agentic_devops/orchestration/loop.py:166-209 | In every reachable state of a thread that is not running, a call begun in the run of its checkpoint is told in the next request if and only if the caller resumes the thread instead of running it afresh |
| `Recovery.FirstCallForgotten` | src/agentic_devops/memory/transcripts.py:175-189 | The first call of a thread, cut off by a crash, in the request of a fresh run |
| `Recovery.EveryCrashCanBeResumed` | src/agentic_devops/orchestration/loop.py:182-209 | Once any call was begun there is a checkpoint; after a crash it can be resumed; and the resumed conversation runs from a user message to a user message, well formed, with every call its run has begun answered or named |
| `Recovery.CheckpointsEndWithReply` | src/agentic_devops/orchestration/loop.py:287-289 | In every reachable state a running or completed checkpoint is a well-formed conversation and the one assistant message that answered it |
| `Recovery.StepKeepsInv` | src/agentic_devops/orchestration/loop.py:166-314 | Each step of a run, a crash, a resume or a fresh run keeps the invariant behind these results |
| `Recovery.ResumedIsSendable` | src/agentic_devops/orchestration/loop.py:190-200 | From any checkpoint the loop writes, resuming gives a well-formed conversation that ends with a user message |
| `Recovery.ResumedStillTells` | src/agentic_devops/orchestration/loop.py:190-200 | Resuming loses nothing the conversation had told about earlier calls |
| `Recovery.ResumedNames` | src/agentic_devops/orchestration/loop.py:190-200 | A call cut off by the crash is named in the note, which stands where the call stood |
| `Recovery.AnswerTells` | src/agentic_devops/orchestration/loop.py:309-312 | The answer message gives every call in hand its result, at its place, and loses nothing told before |
| `Recovery.ResumeTextMentions` | src/agentic_devops/orchestration/loop.py:193-200 | The resumed conversation's last message spells out every name of its note |
| `Recovery.ResumeTextIs` | src/agentic_devops/orchestration/loop.py:193-200 | The order to go on, after the note and a blank line if there is a note |
| `Recovery.EndingsAreSaved` | src/agentic_devops/orchestration/loop.py:253-265 | A run that ends, or reaches its turn limit, is checkpointed with its whole conversation and that outcome |
| `Recovery.CrashTakesTheLive` | src/agentic_devops/orchestration/loop.py:182-209 | A crash takes the live conversation and leaves the checkpoint |
| `ToolTurn.RunTools` | src/agentic_devops/orchestration/loop.py:354-378 | Whatever the world makes of the calls and in whatever order they end, the turn ends on a board the machine can reach with all calls over, and returns one result per call, under its id, with the body of that call's own end, in the order the model asked |
| `ToolTurn.PositionsMeaning` | src/agentic_devops/orchestration/loop.py:367-368 | Reads and writes are exactly the calls that need no human and those that do, each once, in the model's order |
| `ToolTurn.Gather` | src/agentic_devops/orchestration/loop.py:370-373 | All reads are over, no gated call has begun, each read's slot holds that read's own result, and no other slot has changed |
| `ToolTurn.OneAfterAnother` | src/agentic_devops/orchestration/loop.py:375-376 | All calls are over, each gated call's slot holds its own result, and no other slot has changed |
| `ToolTurn.EachCallRunsOnce` | src/agentic_devops/orchestration/loop.py:364-376 | On every board that can be reached, also one a crash left, the events of a call are exactly those its state says: nothing twice, no end before a beginning, and when all is over one beginning and one end that brought its body |
| `ToolTurn.WritesComeAlone` | src/agentic_devops/orchestration/loop.py:359-363 | While a gated call runs, every read and every earlier write is over and no later write has begun |
| `ToolTurn.WritesBeginInOrder` | src/agentic_devops/orchestration/loop.py:359-363 | In every log, where a gated call begins every read and every earlier write has ended before and no later write has begun |
| `ToolTurn.NeverStuck` | src/agentic_devops/orchestration/loop.py:370-376 | Until all calls are over, some call can begin or end |
| `ToolTurn.AllowedExactly` | src/agentic_devops/orchestration/loop.py:367-376 | A read may begin at any time, a write if and only if all reads and the earlier writes are over, and a call may end if and only if it runs |
| `ToolTurn.RunsAreShort` | src/agentic_devops/orchestration/loop.py:364-378 | A run of the calls has at most two events a call, and exactly that many when all are over |
| `AgentLoop.Loop.Turn` | src/agentic_devops/orchestration/loop.py:277-314 | One turn sends the conversation as it is, checkpoints it with the reply before acting, adds the reply and, after tool use, one message with each call's own result in order, and goes on exactly after tool use or a pause, then with a well-formed conversation |
| `AgentLoop.Loop.Begin` | src/agentic_devops/orchestration/loop.py:166-180 | A run starts from the history it is given and the opening, and what it starts from is well formed |
| `AgentLoop.TurnIsSteps` | src/agentic_devops/orchestration/loop.py:277-314 | One turn of the loop is the send, the reply, the calls in the order they began and the answer of the thread in `Recovery`: same request, same checkpoint, same conversation, same calls begun |
| `AgentLoop.CallsAreSteps` | src/agentic_devops/orchestration/loop.py:364-376 | Wherever a turn's calls have got to, the thread of `Recovery` has begun the same calls in the same order and nothing else has changed, so that a crash there is a crash of the thread |
| `AgentLoop.Loop.Turns` | src/agentic_devops/orchestration/loop.py:253-275 | Whatever the model replies and however the tools go, a run ends within its turn limit; request n is well formed and is the opening conversation with the first n exchanges; the run is halted exactly for the limit or a reply that is not a conclusion, and all of it is checkpointed with that outcome |
| `AgentLoop.Loop.ResumeFrom` | src/agentic_devops/orchestration/loop.py:182-206 | Resuming succeeds exactly when there is a checkpoint with something resumable in it, and starts from the conversation `Recovery` speaks of |
| `RankFusion.AgreementThreshold` | src/agentic_devops/memory/knowledge.py:171-175 | In exact fractions, for all list contents, documents found by m indexes outrank all found by fewer if and only if (m - 1) * 3 * limit < k + m |
| `RankFusion.AgreementSuffices` | src/agentic_devops/memory/knowledge.py:190-198 | In any arithmetic of bounded relative error, if the least m lists can make beats the most one fewer can, the document found by more indexes has the higher score, whatever the ranks |
| `RankFusion.AgreementCanLose` | src/agentic_devops/memory/knowledge.py:190-198 | In any arithmetic, if m last places make no more than one fewer first places, there are lists in which the document found by fewer indexes scores at least as high |
| `RankFusion.TwoIndexesUpToTwenty` | src/agentic_devops/memory/knowledge.py:173-175 | For two indexes and k = 60 agreement wins for every limit up to 20 and for no other, in exact fractions and in any arithmetic with a relative error of at most one in a thousand |
| `RankFusion.Fuse` | src/agentic_devops/memory/knowledge.py:190-198 | In whatever arithmetic, the loops hold exactly the ids the indexes named, in order of first appearance, each with the score that adding its ranks' weights in the order they come gives, and the document of its last hit |
| `RankFusion.Search` | src/agentic_devops/memory/knowledge.py:182-204 | The first `limit` of the ranking by the scores the program computes, ties as its arithmetic makes them, each with its score and the document last returned for it |
| `RankFusion.ScoreBounds` | src/agentic_devops/memory/knowledge.py:190-198 | A score lies between the least and the most that the number of lists naming the document allows, rounding included |
| `RankFusion.RankingMeaning` | src/agentic_devops/memory/knowledge.py:200-204 | The ranking has each named id once and no other, by descending score, and of two with equal scores first the one the indexes name first |
| `RankFusion.FirstSeenFirstNamed` | src/agentic_devops/memory/knowledge.py:192-198 | Ids come in the order in which the indexes first name them, list by list and rank by rank |
| `RankFusion.LastHitHasTheDocument` | src/agentic_devops/memory/knowledge.py:194-198 | The document kept for an id is that of the last hit that names it |
| `RankFusion.SortIsStable` | src/agentic_devops/memory/knowledge.py:200-200 | Sorting in reverse by score gives a descending permutation in which ties keep their order |
| `FullText.FTSKnowledgeIndex.Add` | src/agentic_devops/memory/fts.py:76-102 | The postings stay exactly those of the documents, each once, also at a row id used before; a new id gets the document, and a known one everything of it but kind, thread and creation time |
| `FullText.FTSKnowledgeIndex.UpdateRow` | src/agentic_devops/memory/fts.py:50-55 | The update trigger replaces one row's postings and disturbs no other's |
| `FullText.FTSKnowledgeIndex.DeleteDocument` | src/agentic_devops/memory/fts.py:161-167 | Deleting removes the document and exactly its postings, and reports whether there was one |
| `FullText.FTSKnowledgeIndex.MarkVerified` | src/agentic_devops/memory/fts.py:169-176 | Only the mark changes, of a document of any kind, the postings still agree, and it reports whether there was such a document |
| `FullText.FTSKnowledgeIndex.Search` | src/agentic_devops/memory/fts.py:117-152 | Every document returned is one whose title, body or service has a query term's words side by side and that passes the filters; they come best first; and one that is left out is left out only for the limit, and is no better than any that is returned |
| `FullText.FTSKnowledgeIndex.Matching` | src/agentic_devops/memory/fts.py:125-142 | What the index finds, filtered, is exactly what a scan of every document would find |
| `FullText.PhraseMeaning` | src/agentic_devops/memory/fts.py:35-45 | What the index's columns match is what stands in the title, the body or the service |
| `FullText.InsertAgrees` | src/agentic_devops/memory/fts.py:42-45 | The insert trigger keeps postings and documents in agreement at any unused row id |
| `FullText.DeleteAgrees` | src/agentic_devops/memory/fts.py:46-49 | The delete trigger takes away exactly the row's postings and leaves agreement |
| `FullText.RowPostingsCount` | src/agentic_devops/memory/fts.py:35-45 | A row's postings are each of its terms at its column and position once, and nothing else |
| `FullText.PhraseAgrees` | src/agentic_devops/memory/fts.py:125-136 | A quoted term matches in the postings exactly where its terms stand side by side in a column of the document |
| `Knowledge.AgentsCannotEstablishFacts` | src/agentic_devops/memory/learn.py:1-12 | No number of agent write-backs makes a document verified, or adds, alters or removes any document that is not an account of a run |
| `Knowledge.RunsAreVerifiedByHumansOnly` | src/agentic_devops/memory/learn.py:64-73 | After any writes from an empty shelf, an account of a run is verified if and only if the last write to its id was a verification |
| `Knowledge.RecordingAgainUnverifies` | src/agentic_devops/memory/fts.py:83-88 | A human's mark on an account of a run is gone after the same account is recorded again |
| `Knowledge.OnlyConcludedRunsAreRecorded` | src/agentic_devops/memory/learn.py:28-39 | A run is recorded exactly when it was not halted and found a cause, as an unverified account of a run |
| `Knowledge.IdDeterminesKind` | src/agentic_devops/memory/knowledge.py:58-61 | Documents with one id are of one kind |
| `Knowledge.IdDoesNotDetermineText` | src/agentic_devops/memory/knowledge.py:58-61 | Two documents with different titles and bodies have one id, and share one row |
| `Knowledge.WritesKeepKeyed` | src/agentic_devops/memory/fts.py:76-102 | Whatever is written, each row lies under the id of its own kind, title and body, so that an upsert never changes a row's kind |
| `Knowledge.IdText` | src/agentic_devops/memory/knowledge.py:58-61 | What the id of each kind of document is made of |
| `Knowledge.UpsertWrites` | src/agentic_devops/memory/fts.py:78-101 | A known id keeps its kind, thread and creation time and gets everything else of the new document |
| `Knowledge.SetVerifiedWrites` | src/agentic_devops/memory/fts.py:169-176 | Only the mark changes, of a document of any kind |
| `Knowledge.RecordedDocument` | src/agentic_devops/memory/learn.py:37-73 | A recorded run's document has its first cause, cut at 120 characters, for a title, its account for a body, its service or the first a finding names, its thread and turns, and is not verified |
| `Knowledge.FiledByPeople` | src/agentic_devops/memory/learn.py:91-123 | A postmortem is trusted as its author says and keeps its incident, a runbook is trusted |
| `Knowledge.ApplyWrites` | src/agentic_devops/memory/learn.py:76-88 | Each write files its document whole, marks one, or takes one away, and touches no other |
| `Truncation.TruncateBlocks` | src/agentic_devops/mcp/toolset.py:88-114 | For a limit that is not negative the texts left in the output, joined, are exactly the first min(total, limit) characters of all text, each block whole or followed by a marker with the number of characters it lost, other blocks as they were; for a negative one, exactly what is left then |
| `Truncation.ClipBlocks` | src/agentic_devops/mcp/toolset.py:92-114 | The loop gives each block what the budget left by earlier text allows |
| `Truncation.MarkerText` | src/agentic_devops/mcp/toolset.py:107-110 | The marker's text, and that the number in it reads as the number of characters lost |
| `Truncation.KeepsTheBeginning` | src/agentic_devops/mcp/toolset.py:88-114 | The kept text, joined, is exactly the first min(total, limit) characters of all text, and the dropped counts add up to the rest |
| `Truncation.CountsAddUpExactly` | src/agentic_devops/mcp/toolset.py:98-113 | Kept and reported characters add up to the text if and only if the limit is not negative or there is no text |
| `Truncation.ClipsOnlyWhatDoesNotFit` | src/agentic_devops/mcp/toolset.py:94-113 | Results that fit are untouched; if they do not fit some block says so; blocks that are not text never change |
| `Truncation.DecimalReads` | src/agentic_devops/mcp/toolset.py:103-108 | The number a marker prints reads back as the number of characters dropped |

## Left out

- GateWait.ApprovalGate.Wait: a limit before the request expires is not given to the method, because with one the loop
  need not end; `WaitingEndsExactly` and `EarlyDeadlineSpins` say so. `_announce` is not modelled.
- `list_pending`, `history`, `recent`, `resumable`, `purge` and the other listings: filters and sort orders over rows.
- `execute_approved` and `guard`: the same consume and the same forbidden check as `authorize`, without the wait.
- Risk assessment, escalation rules, summaries and denial wording: short branches and strings.
- GateProgress.ApprovedCallExecutes: that the call does make its steps is up to its scheduler; a call that crashes, or
  whose arguments are changed while it waits, is not promised anything.
- RunManager.Manager.StartUp: starting one manager twice is not modelled; two sets of workers would share one queue.
- The stretch from the comparison of fingerprints to the tool call has no await in it, so a caller cannot change the
  arguments there; before it, the model lets them change at any time.
- Storage failures: a statement that raises for lack of disk or a busy database, and a worker that dies of one.
- Several processes over one run ledger: the deployment runs one replica; the approvals table has no such limit here.
- `TranscriptStore` and `serialize_block`: a checkpoint is the conversation itself; the JSON in between is not modelled.
- Recovery.NoCallIsForgotten: speaks of calls of the same run of a thread, because a fresh run overwrites the transcript;
  two runs of one thread at the same time, by two workers, are not modelled.
- Failed checkpoints, which the loop logs and ignores (`loop.py:246-247`): a crash after one can lose a call.
- Recalled knowledge in the opening message, token usage, findings and events of a run: they do not touch the
  conversation's form.
- Turning a tool's exception into an error result: a call's result is an arbitrary text here.
- FullText.FTSKnowledgeIndex.Search: BM25 itself is any function of the id; ties come in any order, as SQL leaves them.
- `query_terms`: the query is any list of terms, and the tokenizer is any function.
- RankFusion.TwoIndexesUpToTwenty: a relative error of at most one in a thousand is asked of every division and addition;
  overflow, underflow and infinities of floating point are not modelled.
- `HybridIndex.add`, `get` and `delete`, and the vector index: they pass calls on, or sort.
- Knowledge.WritesKeepKeyed: the digest's sixteen characters are taken to be injective in the text that is hashed.
- The body of a recorded run (`learn.py:44-62`): any text.
- `ToolCatalog.add` and name sanitizing: a duplicate name is refused by one lookup.
- `fromisoformat` on texts the store does not write, and datetimes that are naive or in another zone.
- `resubmit_interrupted`, schedules, routes, transports, Slack, redaction, metrics and tracing.
