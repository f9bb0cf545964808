/** User feedback about a stored execution: which of its actions were completed, and which were not. */
module FeedbackWriting {
  import opened Wrappers
  import opened Gateway
  import opened Plans
  import opened Sorting
  import E = Execution
  import opened ExecutionResults

  datatype FeedbackError =
    | PlanMissing
    | RunMissing
    | WrongRun
    | NotSelected
    | NotReviewedPlan
    | NoExecution
    | MissingField(name: string)
    | BadOrder
    | UnsupportedStatus

  /** `_ACTION_STATUS_MAP`; skipped and pending actions are not in it. */
  function OutcomeName(status: Status): Option<FeedbackOutcome> {
    match status
    case Succeeded => Some(CompletedNow)
    case IdempotentReplay => Some(AlreadyCompleted)
    case Failed => Some(FailedOutcome)
    case Blocked => Some(BlockedOutcome)
    case RateLimited => Some(RateLimitedOutcome)
    case _ => None
  }

  predicate IsCompleted(outcome: FeedbackOutcome) {
    outcome.CompletedNow? || outcome.AlreadyCompleted?
  }

  /** `_STATUS_MAP`. */
  function FeedbackStatusOf(status: WorkflowStatus): FeedbackStatus {
    match status
    case WorkflowSucceeded => Completed
    case PartiallySucceeded => PartiallyCompleted
    case WorkflowFailed => FeedbackFailed
    case WorkflowSkipped => FeedbackSkipped
  }

  function ErrorCode(fault: Option<Fault>): Option<string> {
    match fault
    case None => None
    case Some(UnknownProvider) => Some("unknown_provider")
    case Some(WriteNotConfirmed) => Some("write_not_confirmed")
    case Some(MissingWriteFields) => Some("missing_write_fields")
    case Some(RateLimitExceeded) => Some("rate_limited")
    case Some(ProviderError(_)) => Some("provider_error")
  }

  /** `_action_summary`, with the checks in their order. */
  function SummaryOf(r: ActionResult): Result<ActionSummary, FeedbackError> {
    if r.ref == "" then Err(MissingField("action_ref"))
    else if r.order <= 0 then Err(BadOrder)
    else if r.tool == "" then Err(MissingField("tool_name"))
    else if r.target == "" then Err(MissingField("target_id"))
    else if OutcomeName(r.status).None? then Err(UnsupportedStatus)
    else Ok(ActionSummary(r.ref, r.order, r.tool, r.target, OutcomeName(r.status).value, ErrorCode(r.fault)))
  }

  function SummariesOf(results: seq<ActionResult>): Result<seq<ActionSummary>, FeedbackError> {
    if results == [] then Ok([])
    else
      var last := |results| - 1;
      match SummariesOf(results[..last])
      case Err(e) => Err(e)
      case Ok(before) =>
        match SummaryOf(results[last])
        case Err(e) => Err(e)
        case Ok(summary) => Ok(before + [summary])
  }

  lemma {:induction false} SummariesFailOnPrefix(results: seq<ActionResult>, n: nat)
    requires n <= |results| && SummariesOf(results[..n]).Err?
    ensures SummariesOf(results) == SummariesOf(results[..n])
    decreases |results|
  {
    if n < |results| {
      var last := |results| - 1;
      assert results[..last][..n] == results[..n];
      SummariesFailOnPrefix(results[..last], n);
    } else {
      assert results[..n] == results;
    }
  }

  function WithCompletion(summaries: seq<ActionSummary>, completed: bool): seq<ActionSummary> {
    if summaries == [] then []
    else
      var last := |summaries| - 1;
      WithCompletion(summaries[..last], completed)
      + if IsCompleted(summaries[last].outcome) == completed then [summaries[last]] else []
  }

  function OrderOfResult(r: ActionResult): int {
    r.order
  }

  function LoadProblem(rows: PlanRows, runs: set<Id>, runId: Id, planId: Id): Option<FeedbackError> {
    if planId !in rows then Some(PlanMissing)
    else if runId !in runs then Some(RunMissing)
    else
      var plan := rows[planId];
      if plan.runId != runId then Some(WrongRun)
      else if !plan.selected then Some(NotSelected)
      else if !plan.json.isReviewedPlan then Some(NotReviewedPlan)
      else if plan.json.execution.None? then Some(NoExecution)
      else None
  }

  function FeedbackFor(execution: ExecutionResult): Result<Feedback, FeedbackError> {
    match SummariesOf(SortBy(execution.actionResults, OrderOfResult))
    case Err(e) => Err(e)
    case Ok(summaries) =>
      Ok(Feedback(FeedbackStatusOf(execution.status), WithCompletion(summaries, true),
                  WithCompletion(summaries, false)))
  }

  /** The status a run is given with the feedback about its plan. */
  function RunStatus(status: FeedbackStatus): string {
    match status
    case Completed => "completed"
    case PartiallyCompleted => "partially_completed"
    case FeedbackFailed => "failed"
    case FeedbackSkipped => "skipped"
  }

  /** `write_execution_feedback`, apart from the memories it derives: the plans and the report. */
  function WriteFeedback(
      rows: PlanRows, runs: set<Id>, runId: Id, planId: Id): (PlanRows, Result<Feedback, FeedbackError>) {
    var problem := LoadProblem(rows, runs, runId, planId);
    if problem.Some? then (rows, Err(problem.value))
    else
      var plan := rows[planId];
      match FeedbackFor(plan.json.execution.value)
      case Err(e) => (rows, Err(e))
      case Ok(feedback) => (WithPlan(rows, planId, plan.status, plan.json.(feedback := Some(feedback))), Ok(feedback))
  }

  /** The runs and their statuses. */
  class AgentRunRepository {
    var statuses: map<Id, string>

    constructor (statuses: map<Id, string>)
      ensures this.statuses == statuses
    {
      this.statuses := statuses;
    }

    /** A run that is not stored is left alone. */
    method UpdateStatus(runId: Id, status: string)
      modifies this
      ensures statuses == if runId in old(statuses) then old(statuses)[runId := status] else old(statuses)
    {
      if runId in statuses {
        statuses := statuses[runId := status];
      }
    }
  }

  class DeterministicFeedbackWriter {
    const plans: PlanRepository
    const runs: AgentRunRepository

    constructor (plans: PlanRepository, runs: AgentRunRepository)
      ensures this.plans == plans && this.runs == runs
    {
      this.plans := plans;
      this.runs := runs;
    }

    /** The run is told how its plan went exactly when the feedback is stored. */
    method WriteExecutionFeedback(runId: Id, planId: Id) returns (result: Result<Feedback, FeedbackError>)
      modifies plans, runs
      ensures (plans.rows, result) == WriteFeedback(old(plans.rows), old(runs.statuses).Keys, runId, planId)
      ensures runs.statuses == match result
                               case Err(_) => old(runs.statuses)
                               case Ok(feedback) => old(runs.statuses)[runId := RunStatus(feedback.status)]
    {
      var problem := LoadProblem(plans.rows, runs.statuses.Keys, runId, planId);
      if problem.Some? {
        return Err(problem.value);
      }
      var plan := plans.rows[planId];
      var execution := plan.json.execution.value;
      var summaries := ActionSummaries(execution);
      if summaries.Err? {
        return Err(summaries.error);
      }
      var feedback := Feedback(FeedbackStatusOf(execution.status),
                               WithCompletion(summaries.value, true), WithCompletion(summaries.value, false));
      plans.UpdateStatusAndPlanJson(planId, plan.status, plan.json.(feedback := Some(feedback)));
      runs.UpdateStatus(runId, RunStatus(feedback.status));
      result := Ok(feedback);
    }

    method ActionSummaries(execution: ExecutionResult) returns (summaries: Result<seq<ActionSummary>, FeedbackError>)
      ensures summaries == SummariesOf(SortBy(execution.actionResults, OrderOfResult))
    {
      var ordered := SortBy(execution.actionResults, OrderOfResult);
      var found: seq<ActionSummary> := [];
      for i := 0 to |ordered|
        invariant SummariesOf(ordered[..i]) == Ok(found)
      {
        assert ordered[..i + 1][..i] == ordered[..i];
        var summary := SummaryOf(ordered[i]);
        if summary.Err? {
          SummariesFailOnPrefix(ordered, i + 1);
          return Err(summary.error);
        }
        found := found + [summary.value];
      }
      assert ordered[..|ordered|] == ordered;
      summaries := Ok(found);
    }
  }

  // ---- what is accepted ------------------------------------------------------------------------

  ghost predicate WellFormed(r: ActionResult) {
    r.order > 0 && r.ref != "" && r.tool != "" && r.target != ""
  }

  /** The summary of an attempted action: what it was, how it went, and the code of its recorded error. */
  ghost predicate Tells(summary: ActionSummary, r: ActionResult) {
    && summary.ref == r.ref && summary.order == r.order && summary.tool == r.tool && summary.target == r.target
    && (summary.outcome.CompletedNow? <==> r.status.Succeeded?)
    && (summary.outcome.AlreadyCompleted? <==> r.status.IdempotentReplay?)
    && (summary.outcome.FailedOutcome? <==> r.status.Failed?)
    && (summary.outcome.BlockedOutcome? <==> r.status.Blocked?)
    && (summary.outcome.RateLimitedOutcome? <==> r.status.RateLimited?)
    && match r.fault
       case None => summary.errorCode.None?
       case Some(UnknownProvider) => summary.errorCode == Some("unknown_provider")
       case Some(WriteNotConfirmed) => summary.errorCode == Some("write_not_confirmed")
       case Some(MissingWriteFields) => summary.errorCode == Some("missing_write_fields")
       case Some(RateLimitExceeded) => summary.errorCode == Some("rate_limited")
       case Some(ProviderError(_)) => summary.errorCode == Some("provider_error")
  }

  /** Why a result cannot be summarised, by the checks in their order. */
  ghost predicate Unfit(r: ActionResult, e: FeedbackError) {
    if r.ref == "" then e == MissingField("action_ref")
    else if r.order <= 0 then e == BadOrder
    else if r.tool == "" then e == MissingField("tool_name")
    else if r.target == "" then e == MissingField("target_id")
    else (r.status.Skipped? || r.status.Pending?) && e == UnsupportedStatus
  }

  lemma {:induction false} SummaryExactly(r: ActionResult)
    ensures forall e :: SummaryOf(r) == Err(e) <==> Unfit(r, e)
    ensures SummaryOf(r).Ok? <==> WellFormed(r) && WasTried(r)
    ensures SummaryOf(r).Ok? ==> Tells(SummaryOf(r).value, r)
  {
  }

  ghost predicate UnfitAt(results: seq<ActionResult>, i: nat, e: FeedbackError)
    requires i < |results|
  {
    (forall j | 0 <= j < i :: WellFormed(results[j]) && WasTried(results[j])) && Unfit(results[i], e)
  }

  /** Summarising raises at the first result that is ill-formed, was skipped or is pending. */
  lemma {:induction false} UnfitExactly(results: seq<ActionResult>)
    ensures SummariesOf(results).Ok? <==>
            forall i | 0 <= i < |results| :: WellFormed(results[i]) && WasTried(results[i])
    ensures SummariesOf(results).Err? ==>
            exists i | 0 <= i < |results| :: UnfitAt(results, i, SummariesOf(results).error)
  {
    if results != [] {
      var last := |results| - 1;
      var prefix := results[..last];
      UnfitExactly(prefix);
      SummaryExactly(results[last]);
      assert forall i | 0 <= i < last :: prefix[i] == results[i];
      if SummariesOf(prefix).Err? {
        var i :| 0 <= i < last && UnfitAt(prefix, i, SummariesOf(prefix).error);
        assert UnfitAt(results, i, SummariesOf(results).error);
      } else if SummariesOf(results).Err? {
        assert UnfitAt(results, last, SummariesOf(results).error);
      }
    }
  }

  /** Why there is nothing to write about. */
  ghost predicate Unready(rows: PlanRows, runs: set<Id>, runId: Id, planId: Id, e: FeedbackError) {
    match e
    case PlanMissing => planId !in rows
    case RunMissing => planId in rows && runId !in runs
    case WrongRun => planId in rows && runId in runs && rows[planId].runId != runId
    case NotSelected => planId in rows && runId in runs && rows[planId].runId == runId && !rows[planId].selected
    case NotReviewedPlan =>
      && planId in rows && runId in runs && rows[planId].runId == runId && rows[planId].selected
      && !rows[planId].json.isReviewedPlan
    case NoExecution =>
      && planId in rows && runId in runs && rows[planId].runId == runId && rows[planId].selected
      && rows[planId].json.isReviewedPlan && rows[planId].json.execution.None?
    case _ => false
  }

  /** The selected, reviewed plan of a stored run, with an execution. */
  ghost predicate IsReady(rows: PlanRows, runs: set<Id>, runId: Id, planId: Id) {
    && planId in rows && runId in runs && rows[planId].runId == runId && rows[planId].selected
    && rows[planId].json.isReviewedPlan && rows[planId].json.execution.Some?
  }

  /** The plan keeps its status and its document but for the feedback, and every other plan stays. */
  ghost predicate StoresFeedback(rows: PlanRows, after: PlanRows, planId: Id, feedback: Feedback)
    requires planId in rows
  {
    && after.Keys == rows.Keys && (forall id | id in rows && id != planId :: after[id] == rows[id])
    && after[planId] == rows[planId].(json := rows[planId].json.(feedback := after[planId].json.feedback))
    && after[planId].json.feedback == Some(feedback)
  }

  /** Feedback is written exactly about a plan that is ready and whose execution can be summarised. */
  lemma {:induction false} WrittenExactly(rows: PlanRows, runs: set<Id>, runId: Id, planId: Id)
    ensures var (after, result) := WriteFeedback(rows, runs, runId, planId);
            && (forall e | Unready(rows, runs, runId, planId, e) :: result == Err(e))
            && (result.Err? ==> after == rows)
            && (result.Ok? ==> IsReady(rows, runs, runId, planId) && StoresFeedback(rows, after, planId, result.value))
            && (IsReady(rows, runs, runId, planId) ==> result == FeedbackFor(rows[planId].json.execution.value))
  {
  }

  /** Something that was attempted. */
  ghost predicate WasTried(r: ActionResult) {
    !r.status.Skipped? && !r.status.Pending?
  }

  /**
   * Well-formed results are summarised, one by one and in order, exactly when none of them was skipped or is pending.
   */
  lemma {:induction false} SummarisedExactly(results: seq<ActionResult>)
    requires forall r | r in results :: WellFormed(r)
    ensures SummariesOf(results).Ok? <==> forall r | r in results :: WasTried(r)
    ensures SummariesOf(results).Ok? ==>
              && |SummariesOf(results).value| == |results|
              && forall i | 0 <= i < |results| :: Tells(SummariesOf(results).value[i], results[i])
  {
    if results != [] {
      var last := |results| - 1;
      assert results == results[..last] + [results[last]];
      SummarisedExactly(results[..last]);
      assert results[last] in results;
    }
  }

  /** Summaries that are first all completed and then all not are split at that point. */
  lemma {:induction false} SplitAt(summaries: seq<ActionSummary>, n: nat, completed: bool)
    requires n <= |summaries|
    requires forall i | 0 <= i < |summaries| :: IsCompleted(summaries[i].outcome) <==> i < n
    ensures WithCompletion(summaries, completed) == if completed then summaries[..n] else summaries[n..]
  {
    if summaries != [] {
      var last := |summaries| - 1;
      SplitAt(summaries[..last], if n <= last then n else last, completed);
      PartsOfPrefix(summaries, n);
    }
  }

  lemma {:induction false} PartsOfPrefix(summaries: seq<ActionSummary>, n: nat)
    requires n <= |summaries| && summaries != []
    ensures var last := |summaries| - 1;
            if n <= last
            then
              && summaries[..last][..n] == summaries[..n]
              && summaries[n..] == summaries[..last][n..] + [summaries[last]]
            else
              && summaries[..n] == summaries[..last] + [summaries[last]]
              && summaries[..last][last..] == summaries[n..] == []
  {
  }

  ghost predicate TellAll(summaries: seq<ActionSummary>, results: seq<ActionResult>) {
    |summaries| == |results| && forall i | 0 <= i < |results| :: Tells(summaries[i], results[i])
  }

  /** Skipped actions follow a failure, so there is none exactly when attempted actions are all there is. */
  lemma {:induction false} NothingSkipped(results: seq<ActionResult>)
    requires StopsAtFirstFailure(results)
    ensures (forall r | r in results :: WasTried(r)) <==>
            E.SucceededCount(results) + E.FailedCount(results) == |results|
  {
    CountsOfShape(results);
    var f := E.FirstFailure(results);
    if f + 1 < |results| {
      assert results[f + 1].status.Skipped? && results[f + 1] in results;
    }
  }

  lemma {:induction false} SplitByShape(results: seq<ActionResult>, summaries: seq<ActionSummary>)
    requires StopsAtFirstFailure(results) && TellAll(summaries, results)
    requires forall r | r in results :: WasTried(r)
    ensures var f := E.FirstFailure(results);
            && TellAll(WithCompletion(summaries, true), results[..f])
            && TellAll(WithCompletion(summaries, false), results[f..])
  {
    var f := E.FirstFailure(results);
    forall i | 0 <= i < |results| ensures IsCompleted(summaries[i].outcome) <==> i < f {
      assert results[i] in results && Tells(summaries[i], results[i]);
    }
    SplitAt(summaries, f, true);
    SplitAt(summaries, f, false);
  }

  /** Completed when every action succeeded, failed when the first one did, skipped when there was none. */
  ghost predicate ReportsStatus(status: FeedbackStatus, results: seq<ActionResult>) {
    && (status.FeedbackSkipped? <==> results == [])
    && (status.Completed? <==> results != [] && forall r | r in results :: IsSuccess(r.status))
    && (status.FeedbackFailed? <==> results != [] && IsFailure(results[0].status))
  }

  lemma {:induction false} StatusIsReported(execution: ExecutionResult)
    requires FromWorkflow(execution)
    ensures ReportsStatus(FeedbackStatusOf(execution.status), execution.actionResults)
  {
    var results := execution.actionResults;
    if results != [] {
      SummaryShape(results);
      CountsOfShape(results);
      if forall r | r in results :: IsSuccess(r.status) {
        FirstFailureIsFirst(results);
      }
    }
  }

  /** The run is told the same, in its own words. */
  lemma {:induction false} RunIsTold(execution: ExecutionResult)
    requires FromWorkflow(execution) && FeedbackFor(execution).Ok?
    ensures var results := execution.actionResults;
            RunStatus(FeedbackFor(execution).value.status)
            == if results == [] then "skipped"
               else if forall r | r in results :: IsSuccess(r.status) then "completed"
               else if IsFailure(results[0].status) then "failed"
               else "partially_completed"
  {
    StatusIsReported(execution);
  }

  /**
   * Of the executions a workflow stores, the writer accepts exactly those in which no action was skipped: those whose
   * failure, if there is one, is the last action. Then the completed actions are the succeeded ones and the others
   * are the failed one, in execution order, so their numbers are the stored counts.
   */
  lemma {:induction false} AcceptedExactly(execution: ExecutionResult)
    requires FromWorkflow(execution)
    ensures FeedbackFor(execution).Ok? <==>
            execution.succeededCount + execution.failedCount == |execution.actionResults|
    ensures FeedbackFor(execution).Ok? ==>
              var feedback := FeedbackFor(execution).value;
              var n := execution.succeededCount;
              && ReportsStatus(feedback.status, execution.actionResults)
              && n <= |execution.actionResults|
              && TellAll(feedback.completed, execution.actionResults[..n])
              && TellAll(feedback.failed, execution.actionResults[n..])
              && |feedback.failed| == execution.failedCount
  {
    var results := execution.actionResults;
    StatusIsReported(execution);
    if execution != E.SKIPPED_RESULT {
      ResultsInOrder(results);
      SummarisedExactly(results);
      NothingSkipped(results);
      CountsOfShape(results);
      if FeedbackFor(execution).Ok? {
        SplitByShape(results, SummariesOf(results).value);
      }
    }
  }

  lemma {:induction false} ResultsInOrder(results: seq<ActionResult>)
    requires forall i, j | 0 <= i < j < |results| :: results[i].order < results[j].order
    ensures SortBy(results, OrderOfResult) == results
  {
    assert forall i, j | 0 <= i < j < |results| :: OrderOfResult(results[i]) <= OrderOfResult(results[j]);
    SortByOfSorted(results, OrderOfResult);
  }
}
