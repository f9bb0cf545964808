/**
 * Execution of a confirmed plan: actions run in order, rows of the Action Ledger are replayed, the first failure stops.
 */
module Execution {
  import opened Wrappers
  import opened JsonTrees
  import opened Gateway
  import opened Plans
  import opened Sorting

  datatype ExecutionError =
    | PlanMissing
    | WrongRun
    | NotSelected
    | PlanDeclined
    | NotConfirmed
    | NotReviewedPlan
    | NoConfirmation
    | ProviderMissing
    | NoTerminalResult
    | NoConfirmedActions
    | ActionsNotAList
    | ActionNotAnObject
    | BadRef
    | BadOrder
    | NotAWriteTool
    | BadTarget
    | BadKey
    | KeyTooLong
    | NotUserConfirmed
    | BadPayload
    | DuplicateRef
    | DuplicateOrder
    | UnsupportedLedgerStatus

  // ---- reading the confirmed actions -----------------------------------------------------------

  /** An `int` at the key; booleans are integers in the source language. */
  function OrderAt(fields: seq<Field>): int {
    match Lookup(fields, "execution_order")
    case Some(Int(n)) => n
    case Some(Bool(b)) => if b then 1 else 0
    case _ => 0
  }

  /** `_validate_action`, with the checks in their order. */
  function ReadAction(value: Json): Result<Action, ExecutionError> {
    if !value.Obj? then Err(ActionNotAnObject)
    else
      var f := value.fields;
      var payload := Lookup(f, "payload");
      if TextAt(f, "action_ref") == "" then Err(BadRef)
      else if OrderAt(f) <= 0 then Err(BadOrder)
      else if TextAt(f, "tool_name") !in WRITE_TOOLS then Err(NotAWriteTool)
      else if TextAt(f, "target_id") == "" then Err(BadTarget)
      else if TextAt(f, "idempotency_key") == "" then Err(BadKey)
      else if |TextAt(f, "idempotency_key")| > 255 then Err(KeyTooLong)
      else if Lookup(f, "user_confirmed") != Some(Bool(true)) then Err(NotUserConfirmed)
      else if payload.Some? && !payload.value.Null? && !payload.value.Obj? then Err(BadPayload)
      else Ok(Action(TextAt(f, "action_ref"), OrderAt(f), TextAt(f, "tool_name"), TextAt(f, "target_id"),
                     if payload.Some? && payload.value.Obj? then payload.value else Obj([]),
                     TextAt(f, "idempotency_key")))
  }

  function RefsOf(actions: seq<Action>): set<string> {
    set a | a in actions :: a.ref
  }

  function OrdersOf(actions: seq<Action>): set<int> {
    set a | a in actions :: a.order
  }

  /** The validated actions in document order, or the first problem. */
  function ReadActions(items: seq<Json>): Result<seq<Action>, ExecutionError> {
    if items == [] then Ok([])
    else
      var last := |items| - 1;
      match ReadActions(items[..last])
      case Err(e) => Err(e)
      case Ok(before) => AddRead(before, ReadAction(items[last]))
  }

  /** One more action behind those read so far. */
  function AddRead(before: seq<Action>, read: Result<Action, ExecutionError>): Result<seq<Action>, ExecutionError> {
    match read
    case Err(e) => Err(e)
    case Ok(a) =>
      if a.ref in RefsOf(before) then Err(DuplicateRef)
      else if a.order in OrdersOf(before) then Err(DuplicateOrder)
      else Ok(before + [a])
  }

  lemma {:induction false} ReadOneMore(items: seq<Json>, i: nat)
    requires i < |items| && ReadActions(items[..i]).Ok?
    ensures ReadActions(items[..i + 1]) == AddRead(ReadActions(items[..i]).value, ReadAction(items[i]))
  {
    assert items[..i + 1][..i] == items[..i];
  }

  lemma {:induction false} SeenGrow(before: seq<Action>, a: Action)
    ensures RefsOf(before + [a]) == RefsOf(before) + {a.ref}
    ensures OrdersOf(before + [a]) == OrdersOf(before) + {a.order}
  {
    assert a in before + [a];
    assert forall b | b in before :: b in before + [a];
  }

  lemma {:induction false} ReadActionsFailsOnPrefix(items: seq<Json>, n: nat)
    requires n <= |items| && ReadActions(items[..n]).Err?
    ensures ReadActions(items) == ReadActions(items[..n])
    decreases |items|
  {
    if n < |items| {
      var last := |items| - 1;
      assert items[..last][..n] == items[..n];
      ReadActionsFailsOnPrefix(items[..last], n);
    } else {
      assert items[..n] == items;
    }
  }

  function OrderOf(a: Action): int {
    a.order
  }

  // ---- one attempt -----------------------------------------------------------------------------

  /** What is fixed during an attempt; `snapshot` is the ledger of the run, read once at its start. */
  datatype Context = Context(runId: Id, provider: string, world: World, snapshot: Ledger)

  /** The state of an attempt between two actions; `asked` is what the rate limiter was asked since it began. */
  datatype Walk = Walk(
    effects: Effects, asked: seq<WriteRequest>, results: seq<ActionResult>, priorFailure: bool, raised: bool)

  function RequestFor(c: Context, a: Action): WriteRequest {
    WriteRequest(c.runId, a.tool, a.payload, c.provider, true, a.target, a.key)
  }

  function ResultOf(
      a: Action, status: Status, response: Option<Json>, fault: Option<Fault>, replayed: bool,
      skipped: bool): ActionResult {
    ActionResult(a.ref, a.order, a.tool, a.target, a.key, status, response, fault, replayed, skipped)
  }

  /** One iteration of `_execute_or_replay_actions`. */
  function Advance(c: Context, w: Walk, a: Action): Walk {
    if w.raised then w
    else if w.priorFailure then
      w.(results := w.results + [ResultOf(a, Skipped, None, None, false, true)])
    else if a.key in c.snapshot then
      var row := c.snapshot[a.key];
      if !IsSuccess(row.status) && !IsFailure(row.status) then w.(raised := true)
      else w.(results := w.results + [ResultOf(a, row.status, row.response, row.fault, true, false)],
              priorFailure := IsFailure(row.status))
    else
      var (effects, reply) := Invoke(w.effects, w.asked, RequestFor(c, a), c.world);
      Walk(effects, Asked(w.effects, w.asked, RequestFor(c, a), c.world),
           w.results + [ResultOf(a, reply.status, reply.response, reply.fault, false, false)],
           IsFailure(reply.status), false)
  }

  function WalkActions(c: Context, actions: seq<Action>, start: Effects): Walk {
    if actions == [] then Walk(start, [], [], false, false)
    else Advance(c, WalkActions(c, actions[..|actions| - 1], start), actions[|actions| - 1])
  }

  lemma {:induction false} RaisedStays(c: Context, actions: seq<Action>, start: Effects, n: nat)
    requires n <= |actions| && WalkActions(c, actions[..n], start).raised
    ensures WalkActions(c, actions, start) == WalkActions(c, actions[..n], start)
    decreases |actions|
  {
    if n < |actions| {
      var last := |actions| - 1;
      assert actions[..last][..n] == actions[..n];
      RaisedStays(c, actions[..last], start, n);
    } else {
      assert actions[..n] == actions;
    }
  }

  /** The rows of one run. */
  function RunRows(ledger: Ledger, runId: Id): Ledger {
    map key | key in ledger && ledger[key].runId == runId :: ledger[key]
  }

  // ---- the result of an attempt ------------------------------------------------------------------

  function SucceededCount(results: seq<ActionResult>): nat {
    if results == [] then 0
    else SucceededCount(results[..|results| - 1]) + if IsSuccess(results[|results| - 1].status) then 1 else 0
  }

  function FailedCount(results: seq<ActionResult>): nat {
    if results == [] then 0
    else FailedCount(results[..|results| - 1]) + if IsFailure(results[|results| - 1].status) then 1 else 0
  }

  function StatusPair(succeeded: nat, failed: nat): (WorkflowStatus, PlanStatus) {
    if succeeded > 0 && failed == 0 then (WorkflowSucceeded, Executed)
    else if succeeded > 0 && failed > 0 then (PartiallySucceeded, PartiallyExecuted)
    else (WorkflowFailed, ExecutionFailed)
  }

  /** The index of the first failure, or the length when there is none. */
  function FirstFailure(results: seq<ActionResult>): (i: nat)
    ensures i <= |results|
  {
    if results == [] then 0
    else
      var last := |results| - 1;
      var i := FirstFailure(results[..last]);
      if i < last then i
      else if IsFailure(results[last].status) then last
      else last + 1
  }

  function SuccessRefs(results: seq<ActionResult>): seq<string> {
    if results == [] then []
    else
      var last := |results| - 1;
      SuccessRefs(results[..last]) + if IsSuccess(results[last].status) then [results[last].ref] else []
  }

  function RollbackMetadata(results: seq<ActionResult>): (RollbackStatus, seq<string>) {
    var failed := FirstFailure(results);
    if failed == |results| then (NotNeeded, [])
    else
      var refs := SuccessRefs(results[..failed]);
      if refs == [] then (NotApplicable, []) else (NotAttempted, refs)
  }

  function Summarize(results: seq<ActionResult>): ExecutionResult {
    var succeeded := SucceededCount(results);
    var failed := FailedCount(results);
    var pair := StatusPair(succeeded, failed);
    var rollback := RollbackMetadata(results);
    ExecutionResult(pair.0, pair.1, results, succeeded, failed, rollback.0, rollback.1)
  }

  const SKIPPED_RESULT := ExecutionResult(WorkflowSkipped, ExecutionSkipped, [], 0, 0, NotNeeded, [])

  // ---- the whole call ----------------------------------------------------------------------------

  /** `_load_executable_plan` and `_plan_json`: None when the plan may be executed or read back. */
  function LoadProblem(rows: PlanRows, runId: Id, planId: Id): Option<ExecutionError> {
    if planId !in rows then Some(PlanMissing)
    else
      var plan := rows[planId];
      if plan.runId != runId then Some(WrongRun)
      else if !plan.selected then Some(NotSelected)
      else if plan.status.Declined? then Some(PlanDeclined)
      else if !plan.status.Confirmed? && !IsTerminal(plan.status) then Some(NotConfirmed)
      else if !plan.json.isReviewedPlan then Some(NotReviewedPlan)
      else if plan.json.confirmation.None? then Some(NoConfirmation)
      else if plan.json.confirmation.value.status != "confirmed" then Some(NotConfirmed)
      else if !plan.json.provider.Str? || plan.json.provider.s == "" then Some(ProviderMissing)
      else None
  }

  function QueuedActions(json: PlanJson): Result<seq<Action>, ExecutionError> {
    if json.confirmedActions.Null? then Err(NoConfirmedActions)
    else if !json.confirmedActions.Arr? then Err(ActionsNotAList)
    else
      match ReadActions(json.confirmedActions.items)
      case Err(e) => Err(e)
      case Ok(actions) => Ok(SortBy(actions, OrderOf))
  }

  function ContextOf(plan: Plan, world: World, effects: Effects): Context {
    Context(plan.runId, if plan.json.provider.Str? then plan.json.provider.s else "", world,
            RunRows(effects.ledger, plan.runId))
  }

  /** `execute_confirmed_plan`. */
  function Execute(rows: PlanRows, effects: Effects, runId: Id, planId: Id, world: World)
    : (PlanRows, Effects, Result<ExecutionResult, ExecutionError>)
  {
    if LoadProblem(rows, runId, planId).Some? then (rows, effects, Err(LoadProblem(rows, runId, planId).value))
    else
      var plan := rows[planId];
      if IsTerminal(plan.status) then
        (rows, effects, if plan.json.execution.Some? then Ok(plan.json.execution.value) else Err(NoTerminalResult))
      else
        match QueuedActions(plan.json)
        case Err(e) => (rows, effects, Err(e))
        case Ok(actions) =>
          if actions == [] then
            (Persisted(rows, planId, SKIPPED_RESULT), effects, Ok(SKIPPED_RESULT))
          else
            var walk := WalkActions(ContextOf(plan, world, effects), actions, effects);
            if walk.raised then (rows, walk.effects, Err(UnsupportedLedgerStatus))
            else (Persisted(rows, planId, Summarize(walk.results)), walk.effects, Ok(Summarize(walk.results)))
  }

  /** `_persist_execution`. */
  function Persisted(rows: PlanRows, planId: Id, result: ExecutionResult): PlanRows
    requires planId in rows
  {
    WithPlan(rows, planId, result.planStatus, rows[planId].json.(execution := Some(result)))
  }

  class DeterministicExecutionWorkflow {
    const plans: PlanRepository
    const gateway: ToolGateway

    constructor (plans: PlanRepository, gateway: ToolGateway)
      ensures this.plans == plans && this.gateway == gateway
    {
      this.plans := plans;
      this.gateway := gateway;
    }

    method ExecuteConfirmedPlan(
        runId: Id, planId: Id, world: World) returns (result: Result<ExecutionResult, ExecutionError>)
      modifies plans, gateway
      ensures (plans.rows, gateway.State(), result)
              == Execute(old(plans.rows), old(gateway.State()), runId, planId, Later(world, old(gateway.asked)))
    {
      var problem := LoadProblem(plans.rows, runId, planId);
      if problem.Some? {
        return Err(problem.value);
      }
      var plan := plans.rows[planId];
      if IsTerminal(plan.status) {
        if plan.json.execution.None? {
          return Err(NoTerminalResult);
        }
        return Ok(plan.json.execution.value);
      }
      var actions := ConfirmedActions(plan.json);
      if actions.Err? {
        return Err(actions.error);
      }
      var summary := SKIPPED_RESULT;
      if actions.value != [] {
        var results := ExecuteOrReplayActions(runId, plan.json.provider.s, actions.value, world);
        if results.Err? {
          return Err(results.error);
        }
        summary := Summarize(results.value);
      }
      plans.UpdateStatusAndPlanJson(planId, summary.planStatus, plan.json.(execution := Some(summary)));
      result := Ok(summary);
    }

    method ConfirmedActions(json: PlanJson) returns (actions: Result<seq<Action>, ExecutionError>)
      ensures actions == QueuedActions(json)
    {
      if json.confirmedActions.Null? {
        return Err(NoConfirmedActions);
      }
      if !json.confirmedActions.Arr? {
        return Err(ActionsNotAList);
      }
      var items := json.confirmedActions.items;
      var validated: seq<Action> := [];
      var seenRefs: set<string> := {};
      var seenOrders: set<int> := {};
      for i := 0 to |items|
        invariant ReadActions(items[..i]) == Ok(validated)
        invariant seenRefs == RefsOf(validated) && seenOrders == OrdersOf(validated)
      {
        ReadOneMore(items, i);
        var action := ReadAction(items[i]);
        if action.Err? {
          ReadActionsFailsOnPrefix(items, i + 1);
          return Err(action.error);
        }
        if action.value.ref in seenRefs {
          ReadActionsFailsOnPrefix(items, i + 1);
          return Err(DuplicateRef);
        }
        if action.value.order in seenOrders {
          ReadActionsFailsOnPrefix(items, i + 1);
          return Err(DuplicateOrder);
        }
        SeenGrow(validated, action.value);
        seenRefs := seenRefs + {action.value.ref};
        seenOrders := seenOrders + {action.value.order};
        validated := validated + [action.value];
      }
      assert items[..|items|] == items;
      actions := Ok(SortBy(validated, OrderOf));
    }

    method ExecuteOrReplayActions(runId: Id, provider: string, actions: seq<Action>, world: World)
      returns (results: Result<seq<ActionResult>, ExecutionError>)
      modifies gateway
      ensures var c := Context(runId, provider, Later(world, old(gateway.asked)), RunRows(old(gateway.ledger), runId));
              var walk := WalkActions(c, actions, old(gateway.State()));
              && gateway.State() == walk.effects
              && results == if walk.raised then Err(UnsupportedLedgerStatus) else Ok(walk.results)
    {
      var existingActions := RunRows(gateway.ledger, runId);
      var actionResults: seq<ActionResult> := [];
      var priorFailure := false;
      ghost var c := Context(runId, provider, Later(world, gateway.asked), existingActions);
      ghost var asked: seq<WriteRequest> := [];
      assert gateway.asked + [] == gateway.asked;
      for i := 0 to |actions|
        invariant WalkActions(c, actions[..i], old(gateway.State()))
                  == Walk(gateway.State(), asked, actionResults, priorFailure, false)
        invariant gateway.asked == old(gateway.asked) + asked
      {
        assert actions[..i + 1][..i] == actions[..i];
        var action := actions[i];
        if priorFailure {
          actionResults := actionResults + [ResultOf(action, Skipped, None, None, false, true)];
        } else if action.key in existingActions {
          var existing := existingActions[action.key];
          if !IsSuccess(existing.status) && !IsFailure(existing.status) {
            RaisedStays(c, actions, old(gateway.State()), i + 1);
            return Err(UnsupportedLedgerStatus);
          }
          actionResults := actionResults
            + [ResultOf(action, existing.status, existing.response, existing.fault, true, false)];
          priorFailure := IsFailure(existing.status);
        } else {
          var request := WriteRequest(runId, action.tool, action.payload, provider, true, action.target, action.key);
          InvokeLater(gateway.State(), old(gateway.asked), asked, request, world);
          asked := Asked(gateway.State(), asked, request, c.world);
          var reply := gateway.InvokeWrite(request, world);
          actionResults := actionResults + [ResultOf(action, reply.status, reply.response, reply.fault, false, false)];
          priorFailure := IsFailure(reply.status);
        }
      }
      assert actions[..|actions|] == actions;
      results := Ok(actionResults);
    }
  }
}
