/** Stored plans: their status, and the parts of the plan document that the saga reads and writes. */
module Plans {
  import opened Wrappers
  import opened JsonTrees
  import opened Gateway

  /** A UUID in its text form, which has a fixed width. */
  type Id = s: string | |s| == 36 witness seq(36, _ => '0')

  datatype PlanStatus =
    | Reviewed
    | Selected
    | Confirmed
    | Declined
    | Executed
    | PartiallyExecuted
    | ExecutionFailed
    | ExecutionSkipped

  predicate IsTerminal(status: PlanStatus) {
    status.Executed? || status.PartiallyExecuted? || status.ExecutionFailed? || status.ExecutionSkipped?
  }

  datatype Confirmation = Confirmation(confirmationId: string, status: string, actor: string, source: string,
      actionCount: nat)

  /** One confirmed action as the executor uses it. */
  datatype Action = Action(ref: string, order: int, tool: string, target: string, payload: Json, key: string)

  datatype ActionResult = ActionResult(
    ref: string, order: int, tool: string, target: string, key: string,
    status: Status, response: Option<Json>, fault: Option<Fault>,
    replayedFromLedger: bool, skippedDueToPriorFailure: bool)

  datatype WorkflowStatus = WorkflowSucceeded | PartiallySucceeded | WorkflowFailed | WorkflowSkipped

  datatype RollbackStatus = NotNeeded | NotApplicable | NotAttempted

  datatype ExecutionResult = ExecutionResult(
    status: WorkflowStatus, planStatus: PlanStatus, actionResults: seq<ActionResult>,
    succeededCount: nat, failedCount: nat,
    rollbackStatus: RollbackStatus, rollbackRefs: seq<string>)

  datatype FeedbackStatus = Completed | PartiallyCompleted | FeedbackFailed | FeedbackSkipped

  /** How the feedback calls the statuses of attempted actions; a skipped action has no such name. */
  datatype FeedbackOutcome = CompletedNow | AlreadyCompleted | FailedOutcome | BlockedOutcome | RateLimitedOutcome

  datatype ActionSummary = ActionSummary(
    ref: string, order: int, tool: string, target: string, outcome: FeedbackOutcome, errorCode: Option<string>)

  datatype Feedback = Feedback(status: FeedbackStatus, completed: seq<ActionSummary>, failed: seq<ActionSummary>)

  /**
   * The plan document. `isReviewedPlan` is the schema version test; `draft` is None when the draft is not an object,
   * and holds the value at `proposed_actions` otherwise (Null when the key is missing).
   */
  datatype PlanJson = PlanJson(
    isReviewedPlan: bool,
    safeToPresent: bool,
    provider: Json,
    draft: Option<Json>,
    confirmation: Option<Confirmation>,
    confirmedActions: Json,
    execution: Option<ExecutionResult>,
    feedback: Option<Feedback>)

  datatype Plan = Plan(runId: Id, status: PlanStatus, selected: bool, json: PlanJson)

  type PlanRows = map<Id, Plan>

  /** A plan of a run in which a plan is selected: that one becomes selected, whatever its status was. */
  function Reselected(plan: Plan, chosen: bool): Plan {
    if chosen then plan.(selected := true, status := Selected)
    else plan.(selected := false, status := if plan.status.Selected? then Reviewed else plan.status)
  }

  /** `select_for_run`. */
  function SelectedForRun(rows: PlanRows, runId: Id, planId: Id): PlanRows {
    if planId !in rows || rows[planId].runId != runId then rows
    else map p | p in rows :: if rows[p].runId == runId then Reselected(rows[p], p == planId) else rows[p]
  }

  /**
   * A plan of the run becomes its one selected plan; one that was selected before is reviewed again, every other keeps
   * its status, and documents and other runs stay. Any other plan is not selected, and nothing changes.
   */
  lemma {:induction false} SelectsExactly(rows: PlanRows, runId: Id, planId: Id)
    ensures var after := SelectedForRun(rows, runId, planId);
            var ours := planId in rows && rows[planId].runId == runId;
            && after.Keys == rows.Keys && (!ours ==> after == rows)
            && (forall p | p in rows :: after[p].runId == rows[p].runId && after[p].json == rows[p].json)
            && (forall p | p in rows && rows[p].runId != runId :: after[p] == rows[p])
            && (ours ==>
                  && after[planId].status == Selected
                  && (forall p | p in rows && rows[p].runId == runId :: after[p].selected <==> p == planId)
                  && (forall p | p in rows && rows[p].runId == runId && p != planId ::
                        after[p].status == if rows[p].status == Selected then Reviewed else rows[p].status))
  {
  }

  class PlanRepository {
    var rows: PlanRows

    constructor (rows: PlanRows)
      ensures this.rows == rows
    {
      this.rows := rows;
    }

    /** Every plan of the run is updated in turn. */
    method SelectForRun(runId: Id, planId: Id) returns (selected: Option<Plan>)
      modifies this
      ensures rows == SelectedForRun(old(rows), runId, planId)
      ensures selected ==
              if planId in old(rows) && old(rows)[planId].runId == runId then Some(rows[planId]) else None
    {
      if planId !in rows || rows[planId].runId != runId {
        return None;
      }
      ghost var before := rows;
      var left := set p | p in rows && rows[p].runId == runId;
      while left != {}
        invariant rows.Keys == before.Keys && left <= before.Keys
        invariant forall p | p in left :: before[p].runId == runId && rows[p] == before[p]
        invariant forall p | p in before && p !in left ::
                    rows[p] == if before[p].runId == runId then Reselected(before[p], p == planId) else before[p]
        decreases left
      {
        var p :| p in left;
        rows := rows[p := Reselected(rows[p], p == planId)];
        left := left - {p};
      }
      selected := Some(rows[planId]);
    }

    method UpdateStatusAndPlanJson(planId: Id, status: PlanStatus, json: PlanJson)
      requires planId in rows
      modifies this
      ensures rows == WithPlan(old(rows), planId, status, json)
    {
      rows := rows[planId := rows[planId].(status := status, json := json)];
    }
  }

  function WithPlan(rows: PlanRows, planId: Id, status: PlanStatus, json: PlanJson): PlanRows
    requires planId in rows
  {
    rows[planId := rows[planId].(status := status, json := json)]
  }

  function TextAt(fields: seq<Field>, name: string): string {
    match Lookup(fields, name)
    case Some(Str(s)) => s
    case _ => ""
  }

  lemma {:induction false} TextExactly(fields: seq<Field>, name: string, text: string)
    ensures HasText(fields, name, text) <==> TextAt(fields, name) == text && text != ""
  {
  }

  lemma {:induction false} NoTextExactly(fields: seq<Field>, name: string)
    ensures NoText(fields, name) <==> TextAt(fields, name) == ""
  {
    TextExactly(fields, name, TextAt(fields, name));
  }
}
