# WeekendPilot: verified models of its deterministic core

WeekendPilot plans a weekend outing, lets a human confirm it, executes the confirmed actions against tools, and
remembers preferences. This project models the deterministic services behind that in Dafny 4.11 and proves what they
promise. `dafny verify dfyconfig.toml` checks everything.

## What is modelled

**The confirmed-action saga** (`Gateway`, `Plans`, `Confirmation`, `Execution`, `ExecutionResults`, `ConfirmExecute`,
`CrashWalks`, `CrashResume`, `Feedback`, `SagaProtocol`, `ConfirmRun`, `SagaExamples`). A reviewed plan becomes
ordered actions with idempotency keys; the executor runs them through the Tool Gateway, replays rows of the Action
Ledger, stops at the first failure and stores a terminal result; the feedback writer reports it. The services are
classes that change a plan store and a gateway; every method is proved equal to a function of the old state, and the
theorems are about those functions:

- interrupted attempts, however many and wherever they stop (between actions, or inside a gateway call before or after the
  provider was reached), followed by one that completes, give the outcomes of one uninterrupted attempt, whatever rows the
  ledger held of the plan at the start;
- over every interleaving of confirm, decline, execute, interrupted execute, feedback and plan selection, no provider is
  called twice for one key, statuses move only forward, and only confirmed plans act.

**Memory governance** (`MemoryAudit`, `MemoryPolicy`, `MemoryPolicyLaws`, `MemoryControl`, `MemoryFeedback`,
`MemoryProtocol`). Users create, update and control memories, feedback writes candidates into the same table, and the
planner reads what governs an intent. The theorems hold over any interleaving of both writers.

**Recovery** (`Recovery`), **conversation merge and clarification** (`Conversation`), **candidate enrichment**
(`Enrichment`, `EnrichmentJobs`, `EnrichmentLaws`), **streamed progress** (`Progress`), **redaction of JSON trees** (`Redaction`),
**timing percentiles** (`OrderStatistics`), **pass@k windows** (`PassWindows`) and **gate publication over fallible
writes** (`GatePublication`). `Wrappers`, `Strings`, `JsonTrees`, `Sorting` and `Counting` hold shared vocabulary.

## What the proofs found

Some promises hold only under a condition; each is proved with the exact condition, and shown to fail at an input.

- **Resuming needs a gateway that refuses alike.** The executor replays settled rows without asking the gateway, so a
  resumed attempt puts fewer questions to the rate limiter, which counts them, than an uninterrupted one. The outcomes agree
  exactly when the first action that does not succeed in one of the two is refused to both or to neither
  (`CrashResumeRefinesOneRun`, from any start). For a limiter that never relaxes, as the gateway's fixed window
  (`FixedWindowNeverRelaxes`), this says that the uninterrupted run does not stop at an action that only it is refused
  (`AlikeUnderFixedWindow`); for one that does not count, that no action settled in between would be refused
  (`AlikeWithoutCounting`). They differ for a settled action whose window is full (`LimitedAfterSettling`), and for two
  reservations with one unit of the window left, although no settled action would be refused (`LastUnitOfTheWindow`).
- **A call cut short ends the plan.** It leaves a pending row, and the executor refuses such a plan for ever
  (`ResumeIsBrokenOffExactly`, `CutShortForEver`): at most once, never at least once.
- **A rolled-back confirmation forgets its calls.** `confirm_run` commits only after the feedback was written, and the
  feedback writer rejects an execution with a skipped action, that is, one whose failure is not its last action. The
  request then rolls back plan and ledger, while the providers were called; sending it again calls them again
  (`RolledBackRequestRepeatsItsCalls`). What a request will do is told by its plan, its rows and its world: it commits
  exactly when no action but the last fails (`CommitsExactly`), and at most once survives it exactly then, or when nobody is
  called (`AtMostOnceExactly`). A request that is killed before it commits loses its rows in the same way (`KilledExactly`,
  `KilledIsForgotten`). Over any requests, answered or killed, at most once holds exactly when each of them kept it, and once
  broken it stays broken (`AtMostOnceOverRequests`). With two actions and a provider that is down, one request makes a call
  and a second one makes it again under the same key (`FirstActionFails`, `SameActionIsRequestedTwice`). The crash-resume
  theorems hold for a ledger whose rows are durable when they are written.
- **Selecting a plan again re-opens it.** `select_for_run` makes any plan of the run selected, declined and executed ones
  included; it is the only way out of those statuses (`EndedIsLeftExactlyBySelection`, and a run that does so is
  `ExecutedPlanIsReopened`). Even then no provider is called twice for a key (`AtMostOnceForEver`).
- **A user's events may not be stored.** `_rebuild_metadata` (backend/app/memory_control/service.py:278-295) copies the loaded
  document shallowly, and the event is appended to a list that both documents share. An object-relational mapper that writes
  every assigned document stores the event; one that writes only documents that differ sees no change. Both are modelled. An
  applied call adds its event exactly when every assignment is written or the row had no metadata (`UserStepAddsEvent`), and
  replaying the events of a created item gives its status exactly when every assignment is written or it still has the status
  it was created with (`EventsReplay`; after a comparing mapper stored an activation, the one event says candidate,
  `ActivationLeavesNoEvent`). That the planner uses only what its owner approved does not depend on it
  (`PlanningUsesWhatUsersApproved`).
- **Feedback erases the history of a candidate.** Overwriting a candidate row drops its metadata, and with it any control
  events (`HistorySurvivesExactly`): a user stores a candidate, feedback overwrites it, and the event of its creation is gone
  (`CreationIsForgotten`).
- **Repeating an update is a no-op exactly when its values survive storage**: a confidence with at most four decimals and
  an expiry with a time zone (`RepeatedUpdateIsNoOpExactly`). An update to a confidence of 0.12345 is applied each time it is
  sent (`RepeatedUpdateAddsEvent`).
- **A style named later drops the wish for child-friendly activities** (`ChildFriendlyKeptExactly`): a turn with a child,
  then one with a style, ask for that style alone, while the intent still says that it is for a family
  (`StyleDropsChildFriendly`).
- **A refused release can look released on disk.** If the alias cannot be refreshed and the report cannot then be
  corrected, the report file keeps claiming an unblocked release (`DiskTellsTheVerdictExactly`,
  `RefusedReleaseLooksReleased`).
- **The current progress stage is not always the last step**: a run waiting for confirmation whose nodes after the wait
  stand for a stage that none before it stood for shows that stage last (`CurrentIsLastExactly`, with nodes for both cases in
  `StageAfterWait`).

Two documents of the repository promise what the code no longer does, and the models follow the code:
`docs/plans/015-deterministic-execution-workflow-plan.md:541-546` re-executes a plan through the gateway, with every
action an idempotent replay, while the code returns the stored result and calls nobody (`ExecutedOnce`);
`docs/plans/121-execution-safety-ledger-hardening-v0-plan.md:51` expects a repeated confirmation to be a safe replay,
which a rolled-back one is not.

## Assumptions

- UUIDs are texts of 36 characters. Providers answer a repeated request in the same way over the attempts of one saga;
  earlier executions of the plan may have been answered otherwise.
- The ledger, plan and memory tables change one row at a time.
- Whether the rate limiter refuses a request depends on the requests it was asked about since the attempt began, refused
  ones included, and on the state of its window then, not on the time that passes meanwhile. A request that is sent again
  finds the same window.
- Case folding and trimming are ASCII. Memory rows are numbered in creation order, and the database session's time zone is
  the one that times without a zone are read in.
- The rate limiter, what providers answer, how the object-relational mapper tracks documents, which database and file writes
  fail, which keywords a turn contains and the current time are inputs.

## Model

| member | source | states |
|---|---|---|
| `Gateway.InvokeKeepsAtMostOnce` | backend/app/tool_gateway/gateway.py:213-280 | no two provider calls share a key, and every called key has a row, also when an invocation is cut short after its pending row |
| `Gateway.InvokeOnlyAddsItsRow` | backend/app/tool_gateway/gateway.py:213-290 | existing rows are never removed or rewritten; a provider is called only for a confirmed request whose key has no row; replies are successes or failures, never pending |
| `Gateway.CalledExactly` | backend/app/tool_gateway/gateway.py:162-290 | a provider is called exactly for an admissible request whose key has no row and that the limiter lets through; a key with a row replays the stored answer without asking the limiter; every other admissible request is a question to the limiter, and leaves no other trace when it is refused |
| `Gateway.AnsweredExactly` | backend/app/tool_gateway/gateway.py:162-290 | the reply to any request, guard by guard in their order; a called provider is called with that very request, and its response or the detail it raised is in the reply and, field by field, in the row; every other row stays |
| `Gateway.AnswerIsReplayed` | backend/app/tool_gateway/gateway.py:213-225 | whoever comes next under the key of a called provider, in whatever world that admits it, gets the answer the provider gave |
| `Gateway.LimitedExactly` | backend/app/tool_gateway/registry.py:93-96 | only reservations are limited: after three questions of one provider in the window, every further one is refused |
| `Gateway.FixedWindowNeverRelaxes` | backend/app/runtime/rate_limit.py:28-46 | the counter of a provider and tool is raised by every question, refused ones included, so more questions before never make it let a request through |
| `Plans.PlanRepository.UpdateStatusAndPlanJson` | backend/app/repositories/plans.py:73-87 | changes status and document of one plan and nothing else |
| `Plans.PlanRepository.SelectForRun` | backend/app/repositories/plans.py:96-112 | the loop over the plans of the run yields the specified store, and the plan that was asked for |
| `Plans.SelectsExactly` | backend/app/repositories/plans.py:96-112 | a plan of the run becomes its one selected plan, whatever its status was; one that was selected is reviewed again, every other keeps its status, documents and other runs stay; any other plan is not selected and nothing changes |
| `Confirmations.FindForbiddenKeys` | backend/app/confirmation/service.py:192-202 | the set of execution fields found by the recursive search |
| `Confirmations.ForbiddenKeysAreFound` | backend/app/confirmation/service.py:192-202 | the search finds something exactly when an execution field occurs at some depth of the action |
| `Confirmations.ForbiddenKeysExactly` | backend/app/confirmation/service.py:192-202 | a name is found exactly when it is an execution field and stands at some depth of the action |
| `Confirmations.ValidateProposedAction` | backend/app/confirmation/service.py:175-190 | the loop over required names and the checks behind it yield the checked proposal or the first problem |
| `Confirmations.CheckedExactly` | backend/app/confirmation/service.py:175-190 | an action passes as a proposal exactly when each part stands, not empty, under its own name, the type is one of five write tools, confirmation is required, the payload is as given or empty, and no execution field is hidden at any depth |
| `Confirmations.RejectedExactly` | backend/app/confirmation/service.py:175-202 | otherwise it is rejected for the first of the checks that it fails |
| `Confirmations.KeyInjective` | backend/app/confirmation/service.py:207-213 | an idempotency key determines its run, plan and action ref, because the two UUIDs have a fixed width |
| `Confirmations.KeyParts` | backend/app/confirmation/service.py:207-213 | where run, plan and ref stand in a key, and its length |
| `Confirmations.HumanConfirmationService.BuildConfirmedActions` | backend/app/confirmation/service.py:142-173 | the loop with its set of seen keys yields the specified action list or the first problem |
| `Confirmations.ConfirmedActionsShape` | backend/app/confirmation/service.py:142-173 | an accepted list has one action per proposal, in order and numbered from one; each has, part by part, the ref, tool, target, payload and reason that its proposal names, and the key of its ref; refs are distinct |
| `Confirmations.KeyTaken` | backend/app/confirmation/service.py:157-160 | a key is taken exactly when an earlier proposal has the same ref |
| `Confirmations.AcceptedExactly` | backend/app/confirmation/service.py:142-190 | a proposal list is accepted exactly when every entry is a proposal whose ref fits the key column and no two refs are equal |
| `Confirmations.ListRejectedExactly` | backend/app/confirmation/service.py:142-173 | any other list is rejected at the first entry that fails behind accepted ones, for its own reason, the length of its ref or its repetition |
| `Confirmations.ConfirmsExactly` | backend/app/confirmation/service.py:28-71 | a selected plan is confirmed exactly when it is the run's, safe to present, with acceptable proposals of distinct refs; then the store is the old one with that plan's status, confirmation record and action list replaced, and the record counts the proposals |
| `Confirmations.ConfirmedOnce` | backend/app/confirmation/service.py:36-48 | confirming again changes nothing and returns the first confirmation; declining then fails |
| `Confirmations.DeclinedOnce` | backend/app/confirmation/service.py:73-114 | a selected plan may be declined whatever its proposals; then only its status and confirmation record change and no action is left; declining again changes nothing, confirming then fails |
| `Confirmations.DecidedPlansStay` | backend/app/confirmation/service.py:36-60 | neither call changes a plan that is not selected any more: its own repeat tells the stored confirmation or what is wrong with it, the other one fails, and any further status fails both |
| `Confirmations.UnpresentableStays` | backend/app/confirmation/service.py:126-140 | a selected plan that may not be presented stays as it is, and both calls tell the first reason |
| `Confirmations.HumanConfirmationService.ConfirmPlan` | backend/app/confirmation/service.py:28-71 | the new plan store and result as a function of the old store: error cases, idempotent repeat, and the stored document |
| `ConfirmExecute.ReadDump` | backend/app/execution/workflow.py:154-171 | an action read back from the stored document is the confirmed action |
| `ConfirmExecute.ConfirmedQueue` | backend/app/execution/workflow.py:130-152 | the executor's queue of a confirmed plan is the confirmed list itself: its sort moves nothing, and each action has, part by part, the ref, tool, target and payload of the proposal in its place; keys differ pairwise |
| `ConfirmExecute.ConfirmedPlanIsExecutable` | backend/app/execution/workflow.py:100-128 | a plan just confirmed is accepted by the executor exactly when it names a provider |
| `Execution.DeterministicExecutionWorkflow.ConfirmedActions` | backend/app/execution/workflow.py:130-171 | validation with its seen sets yields the specified queue or the first problem |
| `Execution.DeterministicExecutionWorkflow.ExecuteOrReplayActions` | backend/app/execution/workflow.py:173-257 | the loop over actions, with its snapshot of the ledger and its failure flag, is the specified walk; gateway state and results agree |
| `Execution.DeterministicExecutionWorkflow.ExecuteConfirmedPlan` | backend/app/execution/workflow.py:39-98 | plan store, gateway state and result as a function of the old ones, for fresh, terminal, empty, failing and broken-off executions |
| `ExecutionResults.WalkShape` | backend/app/execution/workflow.py:173-257 | results align one to one with the actions: successes, then at most one failure, then only skips, without response or fault; replayed ones have the outcome of their row, and called ones what the provider answered to the request with that tool, target, payload and key, or why it was not called |
| `ExecutionResults.ReadExactly` | backend/app/execution/workflow.py:154-171 | a document is read as an action exactly when each part stands under its own name, with a positive order, a write tool, a key of at most 255 characters and the confirmation of the user |
| `ExecutionResults.RefusedExactly` | backend/app/execution/workflow.py:154-171 | otherwise it is refused for the first of the checks that it fails |
| `ExecutionResults.ListReadExactly` | backend/app/execution/workflow.py:130-152 | a list is read exactly as the actions that its documents are, and only when no two share a ref or an order |
| `ExecutionResults.ListErrors` | backend/app/execution/workflow.py:130-152 | any other list is refused at the first document that is refused itself, or shares its ref, or else its order, with one before |
| `ExecutionResults.UnstartableExactly` | backend/app/execution/workflow.py:100-128 | for each error, exactly which plans are refused with it; all others are the selected plan of the run, confirmed or executed, with a confirmation and a provider |
| `ExecutionResults.ExecutedExactly` | backend/app/execution/workflow.py:39-98 | the call for such a plan: a finished one returns what it stored, an unreadable queue raises, an empty one is skipped, any other is worked off from the rows the run has then; only its status and its execution are stored |
| `ExecutionResults.SummaryShape` | backend/app/execution/workflow.py:74-98 | at most one failure; succeeded means all did, failed means the first did not; rollback refs are exactly the succeeded refs when partial and none otherwise |
| `ExecutionResults.StatusExactly` | backend/app/execution/workflow.py:298-303 | the status of any list of results, told by whether some action succeeded and some failed |
| `ExecutionResults.CountsOfShape` | backend/app/execution/workflow.py:79-81 | the counters are the position of the first failure, and whether there is one |
| `ExecutionResults.SuccessRefsOfSuccesses` | backend/app/execution/workflow.py:284-296 | the collected refs of succeeded results are all their refs in order |
| `ExecutionResults.ReadActionsAreValid` | backend/app/execution/workflow.py:130-171 | actions that were read have a positive order, a write tool, a ref, target and key, and distinct orders |
| `ExecutionResults.QueueIsValid` | backend/app/execution/workflow.py:130-152 | the queue is a strictly ordered permutation of the validated actions |
| `ExecutionResults.ExecuteStoresWorkflowResult` | backend/app/execution/workflow.py:82-98 | a finished execution stores and returns a result of that shape, with a terminal plan status |
| `CrashWalks.WalkFromSettled` | backend/app/execution/workflow.py:181-257 | an attempt that finds settled rows replays them, calls providers for the rest, and stops at the first failure, leaving rows for a prefix |
| `CrashWalks.WalkFromBroken` | backend/app/execution/workflow.py:200-222 | a pending row is never retried: the attempt is broken off there and calls nobody |
| `CrashResume.AttemptsProgress` | backend/app/execution/workflow.py:173-257 | whatever attempts were interrupted, wherever, and whatever rows there were before: rows are added for a prefix of the actions, and one pending row behind it exactly when an attempt died inside a gateway call |
| `CrashResume.ResumeIsBrokenOffExactly` | backend/app/execution/workflow.py:200-222 | the final attempt is broken off exactly when it meets a row that is neither a success nor a failure; an attempt that died inside a gateway call leaves one, and then nobody is called; if none was there at the start, the final attempt is broken off exactly when an earlier one died inside a call |
| `CrashResume.CrashResumeRefinesOneRun` | backend/app/execution/workflow.py:173-257 | from any ledger, after any attempts that did not die inside a call, and for any limiter, counting or not: the final attempt gives the outcomes of one uninterrupted attempt exactly when the first action that does not succeed in one of them is refused to both or to neither; then broken off or not, counts, statuses, rollback data, ledger and all provider calls agree too |
| `CrashResume.AlikeUnderFixedWindow` | backend/app/tool_gateway/gateway.py:364-383 | for a limiter that never relaxes, the condition of `CrashResumeRefinesOneRun` says exactly that the action at which the uninterrupted attempt stops is not one that only it is refused |
| `CrashResume.AlikeWithoutCounting` | backend/app/tool_gateway/gateway.py:364-383 | for a limiter that does not count, the condition of `CrashResumeRefinesOneRun` says exactly that no action settled in between would be refused |
| `CrashResume.LaterAttemptsRefine` | backend/app/execution/workflow.py:173-257 | the same between any two points of a history of attempts: those that follow a point matter exactly when the first stop of either walk is refused to one of them only |
| `CrashResume.AtMostOnceOverAllAttempts` | backend/app/tool_gateway/gateway.py:213-280 | over all attempts no provider is called twice for a key, with no assumption on keys, worlds or crashes |
| `FeedbackWriting.DeterministicFeedbackWriter.ActionSummaries` | backend/app/feedback/writer.py:160-202 | the loop over the sorted results yields the specified summaries or the first problem |
| `FeedbackWriting.DeterministicFeedbackWriter.WriteExecutionFeedback` | backend/app/feedback/writer.py:72-118 | the new plan store and feedback as a function of the old store; the run gets the status of the feedback exactly when it is stored |
| `FeedbackWriting.SummarisedExactly` | backend/app/feedback/writer.py:176-202 | well-formed results are summarised one by one and in order exactly when none was skipped or is pending; each summary names the action, how it went, and the code of its recorded error |
| `FeedbackWriting.UnfitExactly` | backend/app/feedback/writer.py:160-208 | any other list raises at the first result that is ill-formed, was skipped or is pending, for the first of its problems |
| `FeedbackWriting.WrittenExactly` | backend/app/feedback/writer.py:72-158 | which plans feedback is written about, the error of every other, and that only the feedback of that plan is stored |
| `FeedbackWriting.NothingSkipped` | backend/app/feedback/writer.py:34-41 | of a stored shape: every action was attempted exactly when succeeded and failed actions are all there are |
| `FeedbackWriting.AcceptedExactly` | backend/app/feedback/writer.py:72-93 | a workflow's execution is accepted exactly when no action was skipped; then it is reported as completed exactly when all succeeded, failed when the first failed and skipped when there was none; completed and failed actions are the succeeded and the failed results, in order, with the stored counts |
| `FeedbackWriting.RunIsTold` | backend/app/feedback/writer.py:28-33 | the run is told the same of the results, in its own words |
| `SagaProtocol.StatusMoves` | backend/app/confirmation/service.py:28-114 | apart from selections, status moves only from selected to confirmed or declined and from confirmed to terminal, and only of the named plan |
| `SagaProtocol.EndedIsLeftExactlyBySelection` | backend/app/repositories/plans.py:96-112 | a declined or terminal plan leaves its status exactly when it is selected again; otherwise only its feedback can change |
| `SagaProtocol.EndedForEver` | backend/app/execution/workflow.py:100-112 | over any run without a selection, an ended plan keeps status, document and result |
| `SagaProtocol.ExecutedOnce` | backend/app/execution/workflow.py:45-53 | after a finished execution and any further operations, executing again changes nothing, calls nobody and returns the first result |
| `SagaProtocol.EffectsOnlyWhileConfirmed` | backend/app/execution/workflow.py:100-128 | ledger and calls change only while a selected plan is confirmed in status and document, and every new call is one of its queued actions with the plan's provider |
| `SagaProtocol.AtMostOnceForEver` | backend/app/tool_gateway/gateway.py:213-280 | no provider is called twice for a key over every interleaving, selections and interruptions included |
| `SagaProtocol.AlwaysSound` | backend/app/confirmation/service.py:142-213 | in every reachable state, each ledger row belongs to the plan and run its key names, that plan has a confirmation record, and no key was called twice |
| `SagaProtocol.RowsOfConfirmedPlans` | backend/app/execution/workflow.py:100-128 | for every ledger row of a reachable state, the step of the run that added it, and that the plan its key names was confirmed just before that step |
| `SagaProtocol.OnlyConfirmedPlansAct` | backend/app/execution/workflow.py:100-112 | without selections, a plan that is reviewed, selected or declined has no row and no provider call |
| `SagaProtocol.CallsAreProposed` | backend/app/confirmation/service.py:142-173 | over every interleaving, each provider call is a confirmed request with the provider of the plan its key names and the ref, tool, target and payload of one of the proposals stored in that plan |
| `SagaProtocol.FreshlyConfirmed` | backend/app/confirmation/service.py:28-71 | a plan confirmed for the first time starts with distinct keys that no row has |
| `SagaProtocol.StartedPlanResumes` | backend/app/execution/workflow.py:39-98 | end to end, from any reachable state in which the plan may be executed: break off any number of times, execute; it completes exactly when it meets no unsettled row, and agrees with executing at once exactly when the first action that does not succeed in one of the two is refused to both or to neither |
| `SagaProtocol.ConfirmedPlanResumes` | backend/app/execution/workflow.py:39-98 | the same for a plan just confirmed, for the first time or after it was executed and selected again |
| `ConfirmRun.CommitsExactly` | backend/app/demo/service.py:528-578 | for any request that gets as far as executing, of a plan confirmed by it or before, told by its plan, rows and world: it commits exactly when no action but the last one fails and none meets an unsettled row |
| `ConfirmRun.CommittedStoresAll` | backend/app/demo/service.py:528-578 | a request for a selected plan that commits has stored its confirmation, by that actor and source, its execution, with the status that follows from it, and the feedback about it; every other plan stays |
| `ConfirmRun.EndsAtOnce` | backend/app/demo/service.py:528-540 | requests that execute nothing: of an unknown run or a plan that cannot be confirmed they fail, of a finished plan they succeed, and nothing is called or stored |
| `ConfirmRun.RolledBackRequestRepeatsItsCalls` | backend/app/api/demo.py:45-57 | a request that does not commit restores rows but not calls; repeating it fails again and makes every call a second time; `FirstActionRaises` gives requests whose list of calls is not empty |
| `ConfirmRun.AtMostOnceExactly` | backend/app/demo/service.py:528-578 | at most once survives such a request exactly when it commits or every action it reaches has a row or is refused, told by its plan, rows and world |
| `ConfirmRun.FirstRequestExactly` | backend/app/demo/service.py:528-578 | for a first request with n actions of which the first f succeed: its execution ends with a result, it commits exactly when f + 1 >= n, and at most once survives exactly then or when f = 0 and the first action is refused |
| `ConfirmRun.FirstActionRaises` | backend/app/api/demo.py:45-57 | two or more actions, the first reaches its provider, which raises: exactly that call is made, its row is lost, and at most once is broken |
| `ConfirmRun.KilledExactly` | backend/app/api/demo.py:45-57 | such a request, killed before its commit, keeps at most once exactly when it died before it reached a provider |
| `ConfirmRun.KilledIsForgotten` | backend/app/api/demo.py:45-57 | sent again after being killed, a request has the outcome of one never killed and makes all its calls behind those already made |
| `ConfirmRun.AtMostOnceOverRequests` | backend/app/api/demo.py:45-57 | over any sequence of requests, answered or killed, from a sound state: at most once holds at the end exactly when each request kept it in the state it met |
| `SagaExamples.FirstActionFails` | backend/app/demo/service.py:528-578 | an initial store with a two-action plan whose provider is down: the request rolls back with one call made and no row for it |
| `SagaExamples.SameActionIsRequestedTwice` | backend/app/demo/service.py:528-578 | after the second try the provider was asked for that same action under the same key twice |
| `SagaExamples.LimitedAfterSettling` | backend/app/execution/workflow.py:188-222 | one settled action, and a window that is full afterwards: the resumed execution succeeds where an uninterrupted one fails |
| `SagaExamples.LastUnitOfTheWindow` | backend/app/tool_gateway/registry.py:93-96 | two reservations, the first settled, one unit of the window left: no settled action would be refused, the resumed execution succeeds and an uninterrupted one fails at the second |
| `SagaExamples.CutShortForEver` | backend/app/execution/workflow.py:200-222 | an attempt that dies inside its call after the provider was reached: every later attempt, in whatever world, raises and changes nothing |
| `SagaExamples.ExecutedPlanIsReopened` | backend/app/repositories/plans.py:96-112 | a run from an initial store that confirms, executes and selects a plan again: it was executed and is selected, and its rows and calls stay |
| `MemoryAudit.AuditExactly` | backend/app/memory_governance_audit.py:42-114 | of any memory whose values do not conflict, on its type, key, meaning, lifecycle and confidence: exactly when it is trusted, advisory, weak, unsupported or not governable, with its tier and reason |
| `MemoryAudit.ConflictExactly` | backend/app/memory_governance_audit.py:117-123 | it raises exactly when value and text have two meanings |
| `MemoryAudit.MeansExactly` | backend/app/memory_governance_audit.py:184-202 | a text means the first of the styles, or the lighter meals, that it names anywhere, whatever its case and the white space around it |
| `MemoryAudit.LifecycleExactly` | backend/app/memory_lifecycle.py:24-38 | a time that is reached ends an active memory, and nothing else changes a lifecycle |
| `MemoryAudit.StatusExactly` | backend/app/memory_lifecycle.py:16-21 | the texts by which each status is stored |
| `MemoryAudit.TierIsMonotone` | backend/app/memory_governance_audit.py:130-140 | more confidence never lowers a tier, expiry never raises it |
| `MemoryAudit.NormalFormIsFixed` | backend/app/memory_governance_audit.py:184-202 | every normalised preference is a fixed point of normalisation |
| `MemoryPolicy.ConsiderMemory` | backend/app/planning/memory_query_policy.py:115-251 | one iteration, branch by branch, records exactly the decision about that memory, which no other memory influences |
| `MemoryPolicy.ApplyMemoryQueryPolicy` | backend/app/planning/memory_query_policy.py:98-275 | the loop over memories yields the specified policy result, or the conflict it meets first |
| `MemoryPolicy.BuildPolicySummary` | backend/app/planning/memory_query_policy.py:315-333 | the counters are the numbers of log entries with each status and influence |
| `MemoryPolicyLaws.RaisesExactly` | backend/app/memory_governance_audit.py:117-123 | the policy raises exactly when some considered memory has conflicting values |
| `MemoryPolicyLaws.ListsFollowDecisions` | backend/app/planning/memory_query_policy.py:115-251 | each key list holds the keys of its memories in order of first occurrence, and the log one entry per considered memory |
| `MemoryPolicyLaws.KeysAreTheListed` | backend/app/planning/memory_query_policy.py:342-344 | key lists have no duplicates and hold exactly the keys of the memories that belong on them, told by type, key, meaning, lifecycle, confidence and signals |
| `MemoryPolicyLaws.EffectiveFollowsDecisions` | backend/app/planning/memory_query_policy.py:220-225 | the effective lists follow from the applied memories alone |
| `MemoryPolicyLaws.EffectiveExactly` | backend/app/planning/memory_query_policy.py:98-275 | an effective list is the intent's list followed by distinct new values, and holds exactly the intent's values and those of memories that serve the dimension, mean the value, count fully or as advice, and meet no signal of the user |
| `MemoryPolicyLaws.PolicyExactly` | backend/app/planning/memory_query_policy.py:98-275 | the whole policy raises exactly when a supported preference has two meanings; otherwise each dimension has its own effective list, and the key lists and the log follow the memories |
| `MemoryPolicyLaws.DecidedExactly` | backend/app/planning/memory_query_policy.py:115-251 | what is decided and logged about a memory: applied as trusted, as advice, overridden, too weak or not recognised, each exactly when |
| `MemoryPolicyLaws.AppliedExactly` | backend/app/memory_governance_audit.py:68-114 | a memory is applied to a dimension with a value exactly when it serves it, means the value, no signal overrides it, and it counts: active with at least 0.5, or expired with at least 0.8 |
| `MemoryPolicyLaws.ListedExactly` | backend/app/planning/memory_query_policy.py:115-251 | for each key list, exactly which memories are on it |
| `MemoryPolicyLaws.UserInputWins` | backend/app/planning/memory_query_policy.py:173-202 | a user signal keeps the intent's own list, whatever the memories are |
| `MemoryPolicyLaws.UngovernedMemoryIsInert` | backend/app/memory_governance_audit.py:68-76 | a memory that is neither active nor expired changes no effective list, wherever it stands |
| `MemoryPolicyLaws.OrderOfMemoriesIsIrrelevant` | backend/app/planning/memory_query_policy.py:98-275 | permuting memories changes neither whether the policy raises, nor the set of effective values, nor any summary count |
| `MemoryPolicyLaws.SummaryBalances` | backend/app/planning/memory_query_policy.py:298-333 | considered is used + ignored + downgraded + overridden; used is primary, downgraded advisory, the rest without influence |
| `MemoryPolicyLaws.SummaryExactly` | backend/app/planning/memory_query_policy.py:278-333 | each counter is the number of the memories that were used, downgraded, overridden or ignored, told by the memories themselves |
| `MemoryPolicyLaws.WinnersAreReported` | backend/app/planning/memory_query_policy.py:173-270 | the reported winners are those of activity preferences, then those of dining, in the order of the memories: the user where a signal overrides one, else the memory with its tier, with the values effective then |
| `MemoryPolicyLaws.OverridesExactly` | backend/app/planning/memory_query_policy.py:173-202 | a dimension is reported as overridden exactly when the user gave a signal for it and some memory of it means something |
| `MemoryControl.MemoryUserControlService.UpdateItem` | backend/app/memory_control/service.py:127-195 | the same for updates, with the list of changed fields |
| `MemoryControl.CreatedExactly` | backend/app/memory_control/service.py:75-125 | an accepted creation adds one row: canonical value, no text, rounded confidence, expiry with a zone, the status asked for, one event and an account of exactly what was dropped |
| `MemoryControl.CreationRefusedExactly` | backend/app/memory_control/service.py:75-113 | for each error, exactly when a creation is refused with it |
| `MemoryControl.UpdatedExactly` | backend/app/memory_control/service.py:127-195 | an accepted update is applied exactly when a field changes, to that row alone, which then has the new values, the old status, and one event naming exactly the changed fields in order, or no trace where the mapper compares documents |
| `MemoryControl.UpdateRefusedExactly` | backend/app/memory_control/service.py:127-163 | for each error, exactly when an update is refused with it |
| `MemoryControl.ControlledExactly` | backend/app/memory_control/service.py:197-238 | an action is accepted exactly on one's own item, which is then active, disabled, ignored, expired or a candidate as the action says; it is applied exactly when it was not before, with one event; nothing else changes |
| `MemoryControl.RoundedExactly` | backend/app/models/runtime.py:117 | a stored confidence is the nearest number of four decimals, halves away from zero, and fits below ten |
| `MemoryControl.RoundedTwice` | backend/app/models/runtime.py:117 | storing a stored confidence again changes nothing |
| `MemoryFeedback.FeedbackMemoryWriter.PersistMemoryCandidates` | backend/app/feedback/writer.py:431-496 | the loop over candidates yields the specified rows, key lists and degraded mark, whichever lookups and writes the database refuses |
| `MemoryFeedback.OnlyCandidatesAreTouched` | backend/app/feedback/writer.py:449-480 | feedback adds candidate rows and overwrites candidate rows; all others are left exactly as they were, whatever the database refuses |
| `MemoryFeedback.OverwrittenExactly` | backend/app/feedback/writer.py:464-480 | exactly the candidate rows that a candidate matches, without trouble in the database, are overwritten, with such a candidate |
| `MemoryFeedback.ReportedExactly` | backend/app/feedback/writer.py:443-496 | what is reported of each candidate, created, updated, skipped or degraded, told by the rows before the write and by what the database refused |
| `MemoryFeedback.ExtractedExactly` | backend/app/feedback/memory_candidates.py:22-70 | the candidates of a plan: the first of three styles its activity is tagged with, and the lighter meals of its dining |
| `MemoryFeedback.HistorySurvivesExactly` | backend/app/repositories/memory.py:69-96 | the events of a row survive a feedback write exactly when it is no matched candidate or has no events |
| `MemoryFeedback.CandidatesAreNormal` | backend/app/feedback/memory_candidates.py:22-70 | every candidate is a supported preference in normal form |
| `MemoryProtocol.FeedbackDoesNotInfluencePlanning` | backend/app/workflow/nodes.py:164-170 | for any table, a feedback write leaves what is loaded and the whole policy result as they were, for every user, intent, signals and time |
| `MemoryProtocol.AlwaysSound` | backend/app/memory_control/service.py:278-317 | over any interleaving rows are canonical and one per user and key; where every assignment of metadata is written, their linked events tell their status |
| `MemoryProtocol.CanonicalNeverConflicts` | backend/app/memory_control/service.py:248-276 | serialising a canonical row never meets the conflict of values |
| `MemoryProtocol.PlanningUsesWhatUsersApproved` | backend/app/repositories/memory.py:135-147 | after any history, everything the planner loads was created active or expired, or set so, by a call of its owner, and has had that status since; where every assignment of metadata is written its last event says so; the policy does not raise |
| `MemoryProtocol.LoadedExactly` | backend/app/repositories/memory.py:135-147 | the planner loads exactly the user's active and expired memories, in the order of their creation, with their lifecycle at that time |
| `MemoryProtocol.ActionsDecideWhatIsGiven` | backend/app/memory_control/service.py:27-33 | after its owner disables, suppresses or marks it a candidate, no memory with that id is loaded, whatever anybody does next, until its owner activates or expires it; right after activating or expiring it is loaded |
| `MemoryProtocol.RepeatedUpdateIsNoOpExactly` | backend/app/memory_control/service.py:142-163 | repeating an accepted update changes nothing and adds no event exactly when its confidence and expiry survive storage |
| `MemoryProtocol.RepeatedUpdateAddsEvent` | backend/app/memory_control/service.py:142-163 | an update to a confidence with five decimals, sent twice to a created item: it is applied both times |
| `MemoryProtocol.UserStepAddsEvent` | backend/app/memory_control/service.py:278-317 | one call adds one event linked to the status exactly when it was applied to the item and either every assignment of metadata is written or the row had no metadata; a call that is not applied changes nothing |
| `MemoryProtocol.EventsReplay` | backend/app/memory_control/service.py:75-246 | for a created item under any user calls: events only grow, one per applied call or, where documents are compared, none; replaying them from nothing gives the status exactly when every assignment is written or the status is that of the creation |
| `MemoryProtocol.ActivationLeavesNoEvent` | backend/app/memory_control/service.py:278-317 | where documents are compared: a user creates a candidate and activates it, the planner loads it, and its one event says candidate |
| `MemoryProtocol.CreationIsForgotten` | backend/app/repositories/memory.py:69-96 | from an empty table: a user creates a candidate, a feedback write matches it, and its row has no event left |
| `Recovery.ChosenExactly` | backend/app/agents/recovery_policy.py:18-107 | for each action, exactly when it is chosen, on review, drafts and context: pass what is safe; otherwise, unless one must stop, replace the first draft if it is blocked and another is there, else expand the search once, else ask, else stop |
| `Recovery.DecisionTells` | backend/app/agents/recovery_policy.py:18-107 | the error a decision names, the route it names, and one unit of budget exactly for what goes round again |
| `Recovery.ExhaustedPolicyEnds` | backend/app/agents/recovery_policy.py:152-179 | with every pair excluded and the search expanded, only passing, asking and stopping are left |
| `Recovery.RoutedExactly` | backend/app/workflow/recovery.py:52-142 | any decision is routed exactly when it goes back, attempts and budget are left and it names no route but its own; otherwise the loop ends, with the reason |
| `Recovery.StoppedExactly` | backend/app/workflow/recovery.py:52-165 | for each reason, exactly when the loop ends in failure with it; and what is on record about every attempt |
| `Recovery.DecisionMoves` | backend/app/workflow/recovery.py:52-142 | how any decision of the policy is routed, recorded and applied |
| `Recovery.AlwaysSound` | backend/app/workflow/nodes.py:314-427 | every routed attempt has excluded one new pair or used the one expansion; excluded pairs are distinct; attempts stay within the limit |
| `Recovery.GoesOnExactly` | backend/app/workflow/nodes.py:314-427 | a run goes on after a round exactly when a draft is to be replaced or the search expanded and allowed attempts are left |
| `Recovery.FilteredInOrder` | backend/app/workflow/nodes.py:911-927 | the drafts that are left are those of pairs not excluded, in their order |
| `Recovery.RecoveryTerminates` | backend/app/workflow/nodes.py:314-427 | over a finite universe of pairs at most one more round than pairs goes round again, and never more than allowed; a run still going has had no more rounds |
| `Recovery.BudgetsAreBounded` | backend/app/agents/recovery_policy.py:72-90 | over any run, whatever the limit, the policy alone grants at most one budget more than there are pairs |
| `Recovery.NoSecondReplacementForATable` | backend/app/agents/recovery_policy.py:62-71 | after a replacement an unavailable table ends the run at once |
| `Recovery.PresentableExactlyWhenSafe` | backend/app/agents/recovery_policy.py:28-34 | a run becomes presentable in the round whose review is safe and never otherwise |
| `Conversation.ParseChildAges` | backend/app/planning/intent_parser.py:155-168 | the nested loops over pattern matches yield the specified ages |
| `Conversation.AgesAreUnique` | backend/app/planning/intent_parser.py:155-168 | each matched age occurs once, and nothing else |
| `Conversation.AgesInOrder` | backend/app/planning/intent_parser.py:155-168 | the ages are listed in the order in which they first match |
| `Conversation.ParsedExactly` | backend/app/planning/intent_parser.py:83-153 | the intent of one turn, part by part on what was found in it: scenario, adults, ages, window, distance, dining and activities, and what it signals |
| `Conversation.BuildFollowUpIntent` | backend/app/demo/replan.py:8-49 | the merge loop yields the specified intent, or none when no turn says anything |
| `Conversation.FollowUpsAreJoined` | backend/app/demo/replan.py:46-49 | the text of a conversation is that of its turns, line by line |
| `Conversation.LastGiverWins` | backend/app/demo/replan.py:20-44 | every part of the merged intent is that of the last turn that gave it, or of the first turn |
| `Conversation.ApplyClarificationPolicy` | backend/app/planning/clarification_policy.py:14-50 | asks exactly for the missing fields, in order |
| `Conversation.MissingExactly` | backend/app/planning/clarification_policy.py:31-50 | which intents miss who comes along, and which miss when |
| `Conversation.MissingWithoutSignal` | backend/app/planning/intent_parser.py:122-137 | in a single parse a field is missing exactly without a signal for it |
| `Conversation.ConversationMisses` | backend/app/demo/replan.py:20-44 | a field of the merged intent is missing exactly when no turn of the conversation signalled it |
| `Conversation.MissingNeverGrows` | backend/app/demo/replan.py:8-49 | after further turns a field is missing exactly when it was missing before and none of them signals it |
| `Conversation.SomethingSaid` | backend/app/demo/replan.py:13-15 | there is an intent exactly when some turn is not blank |
| `Conversation.ChildFriendlyKeptExactly` | backend/app/demo/replan.py:26-44 | when the wish for child-friendly activities survives the merge |
| `Conversation.StyleDropsChildFriendly` | backend/app/demo/replan.py:26-44 | two turns, a child and then a style: the intent stays child-friendly, its activities are the style alone |
| `Enrichment.ResolvePayloadInOrder` | backend/app/planning/enrichment.py:367-393 | the filled template and the first required input that is not given |
| `Enrichment.SelectCandidates` | backend/app/planning/enrichment.py:542-555 | the first candidates of distinct ids, up to the limit |
| `Enrichment.CandidateEnricher.EnrichCandidate` | backend/app/planning/enrichment.py:145-197 | calls, result lists, attributes and early end of one candidate's tools as a function of the state before |
| `Enrichment.CandidateEnricher.AppendRouteMatrixPairs` | backend/app/planning/enrichment.py:229-335 | the nested loops do every route job, row by row, until a failure ends the run |
| `Enrichment.CandidateEnricher.Enrich` | backend/app/planning/enrichment.py:53-135 | the whole run as a function of the calls made before; write templates are refused before any call |
| `EnrichmentJobs.PayloadExactly` | backend/app/planning/enrichment.py:367-393 | a payload is sent exactly when every required input is provided, and holds what the template gives, placeholders resolved, and the context for required names it does not give; otherwise the first name that is not provided is reported |
| `EnrichmentJobs.PerformedExactly` | backend/app/planning/enrichment.py:145-335 | one job, from its template and the gateway: what it asks for, and what is recorded of the reply: result, failure, attribute, or route entry with its distance, minutes and mode |
| `EnrichmentJobs.MinutesExactly` | backend/app/planning/enrichment.py:561-582 | the minutes of a route as given, or else the least number of minutes that covers its seconds |
| `EnrichmentJobs.SelectedExactly` | backend/app/planning/enrichment.py:542-555 | the selected candidates stand where their ids first occur, in order; all of them, or as many as the limit allows |
| `EnrichmentLaws.RunAsksForItsJobs` | backend/app/planning/enrichment.py:53-135 | the calls of a run are, one by one and in order, those of its jobs: the tools of each selected candidate in their order, then the routes row by row |
| `EnrichmentLaws.PerformAccounts` | backend/app/planning/enrichment.py:145-197 | a job records one result for its call or its missing input and one more for a malformed response; its failure is the unusable one |
| `EnrichmentLaws.EnrichmentIsAccounted` | backend/app/planning/enrichment.py:53-135 | results are calls + missing inputs + malformed responses; failed ones are exactly the unusable ones in order; first come the lists of the candidates, each with results of its own id, then those of the routes, pair by pair; the matrix is row-major of full size |
| `EnrichmentLaws.PairsAreRowMajor` | backend/app/planning/enrichment.py:239-240 | position i*width+j of the pair list joins origin i with destination j |
| `EnrichmentLaws.AttributesComeFromResults` | backend/app/planning/enrichment.py:395-421 | a candidate's attributes are told by its own results, by the last usable one of each kind |
| `EnrichmentLaws.FailFastRun` | backend/app/planning/enrichment.py:433-455 | failing fast returns normally exactly when a patient run has no failure, and then with the whole result and the calls of the patient run; a patient run fails only for a write template |
| `Progress.SearchProgressEvidence` | backend/app/demo/progress.py:250-278 | search stages and the last counts, by category |
| `Progress.KindExactly` | backend/app/demo/progress.py:43-56 | which nodes stand for which stage |
| `Progress.SearchStagesExactly` | backend/app/demo/progress.py:250-278 | a search stage stands in the list exactly when such a search was made, in the order of their first ones |
| `Progress.CountsExactly` | backend/app/demo/progress.py:250-278 | the count of a category is the one its last counted search tells |
| `Progress.StageHistory` | backend/app/demo/progress.py:176-197 | the loop with its insertion flag yields the specified history |
| `Progress.BuildSummary` | backend/app/demo/progress.py:97-133 | current stage, history and steps from the evidence |
| `Progress.CurrentExactly` | backend/app/demo/progress.py:200-247 | the current stage is the execution when anything says so, else the confirmation while it is awaited, else the last of the history, else one for a run without history |
| `Progress.DetailExactly` | backend/app/demo/progress.py:309-333 | the number told of each stage, and the note on a declined plan |
| `Progress.BuildSteps` | backend/app/demo/progress.py:281-306 | one step per stage, only the last one current |
| `Progress.HistoryLaws` | backend/app/demo/progress.py:176-197 | no duplicates; exactly the stages of nodes and searches; searches before availability, itinerary, routes, review and confirmation |
| `Progress.SearchesStandThere` | backend/app/demo/progress.py:176-197 | searches stand right behind the stages of the nodes before the first that searches, or that must follow a search |
| `Progress.HistoryNeverLosesAStage` | backend/app/demo/progress.py:176-197 | more nodes and events keep every stage |
| `Progress.CurrentIsLastExactly` | backend/app/demo/progress.py:200-217 | the current stage is the last step unless the run did not execute and, behind the first wait for confirmation, a node stands for a stage that no node up to it stands for |
| `Progress.StageAfterWait` | backend/app/demo/progress.py:176-217 | nodes whose last step is not the current stage, and nodes with a node behind the wait whose last step is |
| `Progress.Truncate` | backend/app/demo/progress.py:428-452 | the prefix up to the stage, with that stage as its one current step; nothing if it was never reached |
| `Redaction.SanitizeTracePayload` | backend/app/observability/redaction.py:31-45 | the recursive rewrite, over any JSON tree |
| `Redaction.Fusion` | backend/app/observability/redaction.py:31-45 | two rewrites one after the other are one rewrite, when the second decides on what the first leaves |
| `Redaction.SanitizeIdempotent` | backend/app/observability/redaction.py:31-51 | sanitising twice is sanitising once |
| `Redaction.SensitiveExactly` | backend/app/observability/redaction.py:47-51 | the keys whose values are masked, by the words they mention |
| `Redaction.MaskedAlike` | backend/app/observability/redaction.py:31-45 | what is left under a masked key does not depend on its value |
| `Redaction.DropAfterSanitizeIsDrop` | backend/app/benchmark/reporting.py:96-112 | dropping forbidden keys after sanitising is dropping alone |
| `Redaction.IdentifierRedactionCommutes` | backend/app/observability/service.py:628-667 | redacting identifiers and dropping preview keys commute |
| `Redaction.NoDroppedKeyRemains` | backend/app/benchmark/reporting.py:96-106 | no forbidden key remains at any depth |
| `Redaction.KeysStayInOrder` | backend/app/observability/redaction.py:31-45 | the keys that are not dropped stay, in their order |
| `Redaction.KeepsEveryOtherPath` | backend/app/observability/redaction.py:31-45 | a path of keys that are neither dropped nor masked leads, after the pass, exactly to the rewritten values it led to before |
| `Redaction.PreviewPayload` | backend/app/observability/service.py:617-626 | nothing is previewed of None, and of every other payload the three passes amount to one rewrite inside an object, with no execution handle left at any depth |
| `OrderStatistics.NearestRankIsQuantile` | backend/app/benchmark/timing.py:78-85 | a sample with at least p·n samples at or below it and fewer than p·n strictly below |
| `OrderStatistics.StatsPermute` | backend/app/benchmark/timing.py:78-101 | the order of samples does not matter |
| `OrderStatistics.StatsAreOrdered` | backend/app/benchmark/timing.py:88-101 | min ≤ p50 ≤ p95 ≤ p99 ≤ max, the ends are the extremes, and the mean lies between them under any rounding that keeps the order of numbers and moves no integer |
| `OrderStatistics.TwoDecimalsRounds` | backend/app/benchmark/timing.py:100 | rounding to two decimals, halves to even, is such a rounding, and moves a number by at most 0.005 |
| `OrderStatistics.SummarizeTiming` | backend/app/benchmark/timing.py:34-75 | samples and retry counts collected per node are those of the cases, node by node, with means under any rounding |
| `OrderStatistics.SamplesExactly` | backend/app/benchmark/timing.py:34-75 | the samples of a node are the totals of its stages, in the order of the cases |
| `OrderStatistics.RetriesExactly` | backend/app/benchmark/timing.py:34-75 | its retries are those of its stages that took more than one attempt |
| `PassWindows.BuildWindows` | backend/app/benchmark/stability_harness.py:200-216 | 4·windows + tail is the number of attempts; each window tells any, all and number of its four successes |
| `PassWindows.StabilityReport` | backend/app/benchmark/stability_harness.py:70-128 | counts and rates of any outcomes, refused below four runs |
| `PassWindows.StatusExactly` | backend/app/benchmark/stability_harness.py:68-105 | a run passes unless its release is blocked or it raised, and then failed unless it was an error |
| `PassWindows.SuccessesBetweenWindows` | backend/app/benchmark/stability_harness.py:107-120 | 4·all ≤ successes ≤ 4·any + tail |
| `PassWindows.RatesAreOrdered` | backend/app/benchmark/stability_harness.py:117-120 | without a tail pass_pow_4 ≤ success_at_1 ≤ pass_at_4, for any monotone rounding |
| `GatePublication.Gate.Publish` | backend/app/benchmark/coverage_gate.py:210-248 | report, alias and findings after the three fallible writes |
| `GatePublication.Gate.WriteEvaluation` | backend/app/benchmark/coverage_gate.py:402-421 | a write that fails leaves the report as it was |
| `GatePublication.Gate.RefreshLatestAlias` | backend/app/benchmark/coverage_gate.py:424-438 | a refresh that fails leaves the alias as it was |
| `GatePublication.ReleasesExactly` | backend/app/benchmark/coverage_gate.py:210-248 | unblocked exactly when nothing was found and both writes succeeded; then report and alias are equal and unblocked, otherwise the alias is unchanged |
| `GatePublication.DiskTellsTheVerdictExactly` | backend/app/benchmark/coverage_gate.py:224-248 | when the report on disk agrees with the returned verdict, and when it claims a refused release |
| `GatePublication.RefusedReleaseLooksReleased` | backend/app/benchmark/coverage_gate.py:224-248 | a clean verdict whose alias and follow-up writes fail: the release is refused, and the report on disk claims it |
| `GatePublication.AliasIsTheLastRelease` | backend/app/benchmark/coverage_gate.py:224-227 | over any runs and failing writes the alias is the unblocked report of the last run that released |
| `GatePublication.EvaluateSafeStop` | backend/app/benchmark/safe_stop_gate.py:91-195 | the verdict and the counters over all cases |
| `GatePublication.FindingsExactly` | backend/app/benchmark/safe_stop_gate.py:98-195 | the gate finds exactly what is wrong: with the header, with some case, under its id, with a counter, or with the number of cases that fail in one of the six expected ways |
| `GatePublication.CountersExactly` | backend/app/benchmark/safe_stop_gate.py:91-152 | each counter is the number of cases with that property |
| `GatePublication.SafeStopExactly` | backend/app/benchmark/safe_stop_gate.py:91-195 | nothing is found exactly when the header is as expected, all eight cases stopped safely with their evidence, one replaced a candidate, and the failure modes are the expected ones |
| `GatePublication.UnblockedSafeStopIsSafe` | backend/app/benchmark/safe_stop_gate.py:111-232 | an unblocked result means every case had no action, a bounded chain and a last action of stop_safely, and report and alias are equal |

## Left out

- Timestamps, trace ids, tool-event and action ids, and user-facing messages, headlines and labels: they are copied or formatted and decide nothing here.
- Pydantic validation of stored documents: results, plans and memories are typed values, so a malformed stored execution result or action result cannot be expressed; malformed proposed and confirmed actions are.
- Read tools, the tool cache and failure injection of the gateway, and tool events: the saga writes only.
- FeedbackWriting.DeterministicFeedbackWriter.WriteExecutionFeedback: the texts of its report are not part of the model; the memory candidates it writes are modelled by `MemoryFeedback`, over their own table.
- The observability record that `confirm_run` also updates.
- Choosing the plan of a `confirm_run` request, and its refusal for the AMAP profile: the request names its plan, which is selected.
- Execution paths of the workflow graph that confirm automatically: they call the same three services in the same order.
- Confidences and expiry times given to the policy as unparsable text: a confidence is a number or none, and lifecycles are resolved when memories are loaded.
- Unicode case folding, white space and digits beyond ASCII.
- Regular expressions and keyword lists of the intent parser: their hits are inputs. Parsing with a reference time, which the merge does not use.
- OrderStatistics.NearestRank: percentiles and ranks are exact reals, so a product that floating point rounds across an integer is not captured.
- PassWindows.StabilityReport: rates are rounded by any function given; the bounds need it to be monotone.
- Conversion of a route mode that is neither text nor empty into text: the entry keeps the value.
- The thresholds and count maps of the coverage gate: its findings are an input to publication.
- Query planning, candidate search, itinerary generation, the review gate, LLM adapters, AMap preview, HTTP routes, the React app, and case matrices.
