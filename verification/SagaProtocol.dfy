/**
 * All services over one store: any interleaving of confirming, declining, executing, broken-off executions, writing
 * feedback, and selecting another plan of a run.
 */
module SagaProtocol {
  import opened Wrappers
  import opened JsonTrees
  import opened Gateway
  import opened Plans
  import opened ConfirmExecute
  import C = Confirmations
  import E = Execution
  import F = FeedbackWriting
  import R = ExecutionResults
  import K = CrashResume
  import W = CrashWalks

  datatype System = System(rows: PlanRows, effects: Effects)

  datatype Op =
    | Confirm(runId: Id, planId: Id, actor: string, source: string)
    | Decline(runId: Id, planId: Id, actor: string, source: string)
    | Execute(runId: Id, planId: Id, world: World)
    | BreakOff(runId: Id, planId: Id, attempt: W.Attempt)
    | WriteFeedback(runs: set<Id>, runId: Id, planId: Id)
    | Select(runId: Id, planId: Id)

  /** The saga of a confirmed plan, as the executor would start it now. */
  ghost function SagaOf(s: System, planId: Id, answer: WriteRequest -> Answer): W.Saga
    requires planId in s.rows && E.QueuedActions(s.rows[planId].json).Ok?
  {
    var plan := s.rows[planId];
    W.Saga(plan.runId, if plan.json.provider.Str? then plan.json.provider.s else "", E.QueuedActions(plan.json).value,
           answer, s.effects)
  }

  ghost predicate Starts(s: System, runId: Id, planId: Id) {
    && E.LoadProblem(s.rows, runId, planId).None?
    && s.rows[planId].status.Confirmed?
    && E.QueuedActions(s.rows[planId].json).Ok?
  }

  ghost function Step(s: System, op: Op): System {
    match op
    case Confirm(runId, planId, actor, source) => s.(rows := C.Confirm(s.rows, runId, planId, actor, source).0)
    case Decline(runId, planId, actor, source) => s.(rows := C.Decline(s.rows, runId, planId, actor, source).0)
    case Execute(runId, planId, world) =>
      var (rows, effects, _) := E.Execute(s.rows, s.effects, runId, planId, world);
      System(rows, effects)
    case BreakOff(runId, planId, attempt) =>
      if Starts(s, runId, planId)
      then s.(effects := W.Interrupted(SagaOf(s, planId, attempt.world.answer), attempt, s.effects))
      else s
    case WriteFeedback(runs, runId, planId) => s.(rows := F.WriteFeedback(s.rows, runs, runId, planId).0)
    case Select(runId, planId) => s.(rows := SelectedForRun(s.rows, runId, planId))
  }

  ghost function Run(s: System, ops: seq<Op>): System {
    if ops == [] then s else Step(Run(s, ops[..|ops| - 1]), ops[|ops| - 1])
  }

  // ---- how the status moves ----------------------------------------------------------------------

  ghost predicate Moves(from: PlanStatus, to: PlanStatus) {
    || from == to
    || (from.Selected? && (to.Confirmed? || to.Declined?))
    || (from.Confirmed? && IsTerminal(to))
  }

  /** A plan as it was, but for its feedback. */
  ghost predicate SameButFeedback(a: Plan, b: Plan) {
    b == a.(json := a.json.(feedback := b.json.feedback))
  }

  lemma {:induction false} ExecuteMoves(s: System, runId: Id, planId: Id, world: World)
    ensures var rows := E.Execute(s.rows, s.effects, runId, planId, world).0;
            || rows == s.rows
            || (&& planId in s.rows && s.rows[planId].status.Confirmed?
                && exists result: ExecutionResult ::
                   R.FromWorkflow(result) && rows == E.Persisted(s.rows, planId, result))
  {
    if planId in s.rows && !IsTerminal(s.rows[planId].status)
      && E.Execute(s.rows, s.effects, runId, planId, world).2.Ok? {
      R.ExecuteStoresWorkflowResult(s.rows, s.effects, runId, planId, world);
    }
  }

  /**
   * Apart from selections, a status only moves from selected to confirmed or declined, and from confirmed to a terminal
   * one.
   */
  lemma {:induction false} StatusMoves(s: System, op: Op, p: Id)
    requires p in s.rows && !op.Select?
    ensures p in Step(s, op).rows
    ensures Step(s, op).rows[p].runId == s.rows[p].runId && Step(s, op).rows[p].selected == s.rows[p].selected
    ensures Moves(s.rows[p].status, Step(s, op).rows[p].status)
    ensures p != op.planId ==> Step(s, op).rows[p] == s.rows[p]
  {
    if op.Execute? {
      ExecuteMoves(s, op.runId, op.planId, op.world);
      var rows := Step(s, op).rows;
      if rows != s.rows {
        var result :| R.FromWorkflow(result) && rows == E.Persisted(s.rows, op.planId, result);
        WorkflowStatusIsTerminal(result);
      }
    }
  }

  lemma {:induction false} WorkflowStatusIsTerminal(result: ExecutionResult)
    requires R.FromWorkflow(result)
    ensures IsTerminal(result.planStatus)
  {
  }

  ghost predicate Ended(plan: Plan) {
    plan.status.Declined? || IsTerminal(plan.status)
  }

  /** The single way out of declined and terminal statuses is that very plan being selected again. */
  lemma {:induction false} EndedIsLeftExactlyBySelection(s: System, op: Op, p: Id)
    requires p in s.rows && Ended(s.rows[p])
    ensures p in Step(s, op).rows
    ensures Step(s, op).rows[p].status != s.rows[p].status <==> op == Select(s.rows[p].runId, p)
    ensures op != Select(s.rows[p].runId, p) ==>
              SameButFeedback(s.rows[p].(selected := Step(s, op).rows[p].selected), Step(s, op).rows[p])
    ensures !(op.Select? && op.runId == s.rows[p].runId) ==> SameButFeedback(s.rows[p], Step(s, op).rows[p])
  {
    if !op.Select? {
      StatusMoves(s, op, p);
      if op.Execute? {
        ExecuteMoves(s, op.runId, op.planId, op.world);
      }
    }
  }

  ghost predicate NeverSelected(ops: seq<Op>, runId: Id) {
    forall op | op in ops :: !(op.Select? && op.runId == runId)
  }

  /**
   * Whatever happens between: without a selection in its run, an ended plan keeps its status, its document and its
   * result.
   */
  lemma {:induction false} EndedForEver(s: System, ops: seq<Op>, p: Id)
    requires p in s.rows && Ended(s.rows[p]) && NeverSelected(ops, s.rows[p].runId)
    ensures p in Run(s, ops).rows && SameButFeedback(s.rows[p], Run(s, ops).rows[p])
  {
    if ops != [] {
      var last := |ops| - 1;
      EndedForEver(s, ops[..last], p);
      EndedIsLeftExactlyBySelection(Run(s, ops[..last]), ops[last], p);
    }
  }

  /**
   * The first result is the result: after a finished execution, and whatever the services do next, executing the plan
   * again changes nothing, calls nobody, and returns the stored result.
   */
  lemma {:induction false} ExecutedOnce(s: System, runId: Id, planId: Id, world: World, ops: seq<Op>, later: World)
    requires E.Execute(s.rows, s.effects, runId, planId, world).2.Ok?
    requires NeverSelected(ops, runId)
    ensures var now := Run(Step(s, Execute(runId, planId, world)), ops);
            var result := E.Execute(s.rows, s.effects, runId, planId, world).2;
            E.Execute(now.rows, now.effects, runId, planId, later) == (now.rows, now.effects, result)
  {
    var after := Step(s, Execute(runId, planId, world));
    ExecutedIsStored(s, runId, planId, world);
    EndedForEver(after, ops, planId);
    StoredResultIsReturned(after, Run(after, ops), runId, planId, later);
  }

  ghost predicate Stores(s: System, runId: Id, planId: Id, result: Result<ExecutionResult, E.ExecutionError>) {
    && E.LoadProblem(s.rows, runId, planId).None? && IsTerminal(s.rows[planId].status)
    && result.Ok? && s.rows[planId].json.execution == Some(result.value)
  }

  lemma {:induction false} ExecutedIsStored(s: System, runId: Id, planId: Id, world: World)
    requires E.Execute(s.rows, s.effects, runId, planId, world).2.Ok?
    ensures var (rows, effects, result) := E.Execute(s.rows, s.effects, runId, planId, world);
            && Stores(System(rows, effects), runId, planId, result)
            && s.rows[planId].runId == runId == rows[planId].runId
  {
    if !IsTerminal(s.rows[planId].status) {
      R.ExecuteStoresWorkflowResult(s.rows, s.effects, runId, planId, world);
      PersistedIsStored(s, runId, planId, E.Execute(s.rows, s.effects, runId, planId, world).2.value);
    }
  }

  lemma {:induction false} PersistedIsStored(s: System, runId: Id, planId: Id, result: ExecutionResult)
    requires E.LoadProblem(s.rows, runId, planId).None? && IsTerminal(result.planStatus)
    ensures forall effects :: Stores(System(E.Persisted(s.rows, planId, result), effects), runId, planId, Ok(result))
  {
  }

  lemma {:induction false} StoredResultIsReturned(earlier: System, now: System, runId: Id, planId: Id, world: World)
    requires planId in earlier.rows && planId in now.rows && SameButFeedback(earlier.rows[planId], now.rows[planId])
    ensures forall result | Stores(earlier, runId, planId, result) ::
              E.Execute(now.rows, now.effects, runId, planId, world) == (now.rows, now.effects, result)
  {
  }

  // ---- who is called, and when ---------------------------------------------------------------------

  ghost predicate CallsAdded(before: Effects, after: Effects, provider: string, runId: Id, queue: seq<Action>) {
    && before.calls <= after.calls
    && (forall i | |before.calls| <= i < |after.calls| :: RequestsOne(after.calls[i], provider, runId, queue))
    && (forall key | key in before.ledger :: key in after.ledger && after.ledger[key] == before.ledger[key])
    && (forall key | key in after.ledger && key !in before.ledger ::
        after.ledger[key].runId == runId && Queues(queue, key))
  }

  ghost predicate RequestsOne(r: WriteRequest, provider: string, runId: Id, queue: seq<Action>) {
    r.provider == provider && r.runId == runId && r.userConfirmed &&
    exists i | 0 <= i < |queue| ::
      r.key == queue[i].key && r.tool == queue[i].tool && r.target == queue[i].target && r.payload == queue[i].payload
  }

  ghost predicate Queues(queue: seq<Action>, key: string) {
    exists i | 0 <= i < |queue| :: queue[i].key == key
  }

  lemma {:induction false} InvokeAdds(
      before: Effects, mid: Effects, asked: seq<WriteRequest>, c: E.Context, queue: seq<Action>, i: nat)
    requires i < |queue| && CallsAdded(before, mid, c.provider, c.runId, queue)
    ensures CallsAdded(before, Invoke(mid, asked, E.RequestFor(c, queue[i]), c.world).0, c.provider, c.runId, queue)
    ensures Refusal(mid, asked, E.RequestFor(c, queue[i]), c.world).None? ==>
              forall called :: CallsAdded(before, CutOff(mid, E.RequestFor(c, queue[i]), called), c.provider, c.runId,
                                          queue)
  {
    assert RequestsOne(E.RequestFor(c, queue[i]), c.provider, c.runId, queue);
    assert Queues(queue, queue[i].key);
  }

  lemma {:induction false} WalkAdds(c: E.Context, queue: seq<Action>, n: nat, start: Effects)
    requires n <= |queue|
    ensures CallsAdded(start, E.WalkActions(c, queue[..n], start).effects, c.provider, c.runId, queue)
  {
    if n > 0 {
      assert queue[..n][..n - 1] == queue[..n - 1];
      WalkAdds(c, queue, n - 1, start);
      var walk := E.WalkActions(c, queue[..n - 1], start);
      InvokeAdds(start, walk.effects, walk.asked, c, queue, n - 1);
    }
  }

  ghost function ProviderOf(plan: Plan): string {
    if plan.json.provider.Str? then plan.json.provider.s else ""
  }

  /**
   * Effects change only while a selected plan is confirmed, in its status and in its document, and only as its queue
   * says.
   */
  lemma {:induction false} EffectsOnlyWhileConfirmed(s: System, op: Op)
    requires Step(s, op).effects != s.effects
    ensures op.Execute? || op.BreakOff?
    ensures Starts(s, op.runId, op.planId)
    ensures var plan := s.rows[op.planId];
            && plan.runId == op.runId && plan.selected
            && plan.json.confirmation.Some? && plan.json.confirmation.value.status == "confirmed"
            && CallsAdded(s.effects, Step(s, op).effects, ProviderOf(plan), op.runId, E.QueuedActions(plan.json).value)
  {
    var plan := s.rows[op.planId];
    var queue := E.QueuedActions(plan.json).value;
    match op
    case Execute(runId, planId, world) =>
      assert queue[..|queue|] == queue;
      WalkAdds(E.ContextOf(plan, world, s.effects), queue, |queue|, s.effects);
    case BreakOff(runId, planId, attempt) =>
      BreakOffAdds(SagaOf(s, planId, attempt.world.answer), attempt, s.effects);
    case _ =>
  }

  lemma {:induction false} BreakOffAdds(saga: W.Saga, attempt: W.Attempt, start: Effects)
    ensures CallsAdded(start, W.Interrupted(saga, attempt, start), saga.provider, saga.runId, saga.actions)
  {
    var c := W.ContextFrom(saga, attempt.world, start);
    var done := W.StopsBefore(saga, attempt);
    WalkAdds(c, saga.actions, done, start);
    if done < |saga.actions| {
      var walk := E.WalkActions(c, saga.actions[..done], start);
      InvokeAdds(start, walk.effects, walk.asked, c, saga.actions, done);
    }
  }

  lemma {:induction false} StepKeepsAtMostOnce(s: System, op: Op)
    requires AtMostOnce(s.effects)
    ensures AtMostOnce(Step(s, op).effects)
  {
    if Step(s, op).effects != s.effects {
      EffectsOnlyWhileConfirmed(s, op);
      var plan := s.rows[op.planId];
      match op
      case Execute(runId, planId, world) =>
        K.WalkKeepsAtMostOnce(E.ContextOf(plan, world, s.effects), E.QueuedActions(plan.json).value, s.effects);
      case BreakOff(runId, planId, attempt) =>
        K.InterruptedKeepsAtMostOnce(SagaOf(s, planId, attempt.world.answer), attempt, s.effects);
      case _ =>
    }
  }

  /**
   * No provider is ever called twice for one idempotency key, over every interleaving of every operation, selections
   * and broken-off executions included: a plan that is selected, confirmed and executed once more replays its rows.
   */
  lemma {:induction false} AtMostOnceForEver(s: System, ops: seq<Op>)
    requires AtMostOnce(s.effects)
    ensures AtMostOnce(Run(s, ops).effects)
  {
    if ops != [] {
      var last := |ops| - 1;
      AtMostOnceForEver(s, ops[..last]);
      StepKeepsAtMostOnce(Run(s, ops[..last]), ops[last]);
    }
  }

  // ---- whose rows these are ------------------------------------------------------------------------

  /** The stored document is that of an accepted confirmation. */
  ghost predicate HoldsConfirmedActions(plan: Plan, planId: Id) {
    var actions := C.ConfirmActions(plan.runId, planId, C.Proposed(plan.json));
    && plan.json.confirmation.Some? && plan.json.confirmation.value.status == "confirmed"
    && actions.Ok?
    && plan.json.confirmedActions == C.DumpAll(actions.value)
  }

  ghost predicate BelongsTo(key: string, rows: PlanRows) {
    && |key| >= 82
    && key[45..81] in rows
    && key == C.IdempotencyKey(rows[key[45..81]].runId, key[45..81], key[82..])
  }

  /**
   * What every interleaving keeps: rows belong to the plan their key names, and that plan has a confirmation record.
   * That it was confirmed before it got its first row is `RowsOfConfirmedPlans`.
   */
  ghost predicate Sound(s: System) {
    && AtMostOnce(s.effects)
    && (forall p | p in s.rows && s.rows[p].status.Confirmed? :: HoldsConfirmedActions(s.rows[p], p))
    && (forall key | key in s.effects.ledger :: RowSound(s, key))
  }

  ghost predicate RowSound(s: System, key: string)
    requires key in s.effects.ledger
  {
    && BelongsTo(key, s.rows)
    && s.rows[key[45..81]].runId == s.effects.ledger[key].runId
    && s.rows[key[45..81]].json.confirmation.Some?
  }

  /** Without selections, more: the plan is still confirmed, or has ended in execution. */
  ghost predicate RowsOnlyOfExecuted(s: System) {
    forall key | key in s.effects.ledger ::
      BelongsTo(key, s.rows) && (s.rows[key[45..81]].status.Confirmed? || IsTerminal(s.rows[key[45..81]].status))
  }

  ghost predicate Initial(s: System) {
    && s.effects == Effects(map[], [])
    && forall p | p in s.rows ::
       (s.rows[p].status.Reviewed? || s.rows[p].status.Selected?) && s.rows[p].json.confirmation.None?
  }

  lemma {:induction false} QueueOfConfirmed(plan: Plan, planId: Id)
    requires HoldsConfirmedActions(plan, planId) && E.QueuedActions(plan.json).Ok?
    ensures var queue := E.QueuedActions(plan.json).value;
            && (forall i | 0 <= i < |queue| :: queue[i].key == C.IdempotencyKey(plan.runId, planId, queue[i].ref))
            && (forall i | 0 <= i < |queue| :: queue[i].target != "")
            && (forall i, j | 0 <= i < j < |queue| :: queue[i].key != queue[j].key)
  {
    C.ConfirmedActionsShape(plan.runId, planId, C.Proposed(plan.json));
    ConfirmedQueue(plan.json, plan.runId, planId, "", "");
    var queue := E.QueuedActions(plan.json).value;
    var actions := C.ConfirmActions(plan.runId, planId, C.Proposed(plan.json)).value;
    forall i | 0 <= i < |queue|
      ensures queue[i].key == C.IdempotencyKey(plan.runId, planId, queue[i].ref) && queue[i].target != ""
    {
      assert FromProposal(queue[i], C.Proposed(plan.json)[i], plan.runId, planId, i + 1);
    }
  }

  lemma {:induction false} ConfirmHoldsActions(s: System, op: Op, p: Id)
    requires p in s.rows && op.Confirm? && (s.rows[p].status.Confirmed? ==> HoldsConfirmedActions(s.rows[p], p))
    ensures p in Step(s, op).rows
    ensures Step(s, op).rows[p].status.Confirmed? ==> HoldsConfirmedActions(Step(s, op).rows[p], p)
    ensures Step(s, op).rows[p].runId == s.rows[p].runId
    ensures s.rows[p].json.confirmation.Some? ==> Step(s, op).rows[p].json.confirmation.Some?
  {
  }

  /** No step removes a plan, moves it to another run, or takes its confirmation record away. */
  lemma {:induction false} PlansKept(s: System, op: Op, p: Id)
    requires p in s.rows
    ensures p in Step(s, op).rows && Step(s, op).rows[p].runId == s.rows[p].runId
    ensures s.rows[p].json.confirmation.Some? ==> Step(s, op).rows[p].json.confirmation.Some?
    ensures (s.rows[p].status.Confirmed? ==> HoldsConfirmedActions(s.rows[p], p)) ==>
            (Step(s, op).rows[p].status.Confirmed? ==> HoldsConfirmedActions(Step(s, op).rows[p], p))
  {
    match op
    case Confirm(_, _, _, _) =>
      if s.rows[p].status.Confirmed? ==> HoldsConfirmedActions(s.rows[p], p) {
        ConfirmHoldsActions(s, op, p);
      }
    case Execute(runId, planId, world) =>
      ExecuteMoves(s, runId, planId, world);
    case _ =>
  }

  lemma {:induction false} NewRowsSound(s: System, op: Op, key: string)
    requires Sound(s) && key in Step(s, op).effects.ledger && key !in s.effects.ledger
    ensures Starts(s, op.runId, op.planId)
    ensures |key| >= 82 && key[45..81] == op.planId && key == C.IdempotencyKey(op.runId, op.planId, key[82..])
    ensures Step(s, op).effects.ledger[key].runId == op.runId && s.rows[op.planId].runId == op.runId
    ensures s.rows[op.planId].json.confirmation.Some?
  {
    EffectsOnlyWhileConfirmed(s, op);
    var plan := s.rows[op.planId];
    QueueOfConfirmed(plan, op.planId);
    var queue := E.QueuedActions(plan.json).value;
    var i :| 0 <= i < |queue| && queue[i].key == key;
    C.KeyParts(op.runId, op.planId, queue[i].ref);
  }

  lemma {:induction false} StepKeepsSound(s: System, op: Op)
    requires Sound(s)
    ensures Sound(Step(s, op))
  {
    StepKeepsAtMostOnce(s, op);
    var after := Step(s, op);
    forall p | p in after.rows && after.rows[p].status.Confirmed? ensures HoldsConfirmedActions(after.rows[p], p) {
      NoPlanAppears(s, op);
      PlansKept(s, op, p);
    }
    forall key | key in after.effects.ledger ensures RowSound(after, key) {
      if key in s.effects.ledger {
        PlansKept(s, op, key[45..81]);
        RowsKept(s, op, key);
      } else {
        NewRowsSound(s, op, key);
        PlansKept(s, op, op.planId);
      }
    }
  }

  lemma {:induction false} NoPlanAppears(s: System, op: Op)
    ensures Step(s, op).rows.Keys == s.rows.Keys
  {
    if op.Execute? {
      ExecuteMoves(s, op.runId, op.planId, op.world);
    }
  }

  lemma {:induction false} RowsKept(s: System, op: Op, key: string)
    requires key in s.effects.ledger
    ensures key in Step(s, op).effects.ledger && Step(s, op).effects.ledger[key] == s.effects.ledger[key]
  {
    if Step(s, op).effects != s.effects {
      EffectsOnlyWhileConfirmed(s, op);
    }
  }

  lemma {:induction false} AlwaysSound(s: System, ops: seq<Op>)
    requires Initial(s)
    ensures Sound(Run(s, ops))
  {
    if ops != [] {
      var last := |ops| - 1;
      AlwaysSound(s, ops[..last]);
      StepKeepsSound(Run(s, ops[..last]), ops[last]);
    }
  }

  /**
   * The call is a confirmed request for what some proposal of the plan its key names asks for: its run and provider,
   * the proposal's ref, tool, target and payload.
   */
  ghost predicate IsProposed(call: WriteRequest, rows: PlanRows) {
    && BelongsTo(call.key, rows) && call.userConfirmed
    && var plan := rows[call.key[45..81]];
    && call.runId == plan.runId && call.provider == ProviderOf(plan)
    && IsAmong(C.Proposed(plan.json), call.key[82..], call)
  }

  ghost predicate IsAmong(proposed: seq<Json>, ref: string, call: WriteRequest) {
    exists i, reason | 0 <= i < |proposed| ::
      C.Proposes(proposed[i], C.Proposal(ref, call.tool, call.target, reason, call.payload))
  }

  /** No step changes the run of a plan, what it proposes, or the provider it names. */
  lemma {:induction false} ProposalsKept(s: System, op: Op, p: Id)
    requires p in s.rows
    ensures p in Step(s, op).rows && Step(s, op).rows[p].runId == s.rows[p].runId
    ensures Step(s, op).rows[p].json.draft == s.rows[p].json.draft
    ensures Step(s, op).rows[p].json.provider == s.rows[p].json.provider
  {
    if op.Execute? {
      ExecuteMoves(s, op.runId, op.planId, op.world);
    }
  }

  lemma {:induction false} QueuedIsProposed(s: System, planId: Id, call: WriteRequest)
    requires planId in s.rows && HoldsConfirmedActions(s.rows[planId], planId)
    requires E.QueuedActions(s.rows[planId].json).Ok?
    requires RequestsOne(call, ProviderOf(s.rows[planId]), s.rows[planId].runId,
                         E.QueuedActions(s.rows[planId].json).value)
    ensures IsProposed(call, s.rows)
  {
    var plan := s.rows[planId];
    var queue := E.QueuedActions(plan.json).value;
    C.ConfirmedActionsShape(plan.runId, planId, C.Proposed(plan.json));
    ConfirmedQueue(plan.json, plan.runId, planId, "", "");
    var i :| 0 <= i < |queue| && call.key == queue[i].key && call.tool == queue[i].tool
      && call.target == queue[i].target && call.payload == queue[i].payload;
    assert FromProposal(queue[i], C.Proposed(plan.json)[i], plan.runId, planId, i + 1);
    C.KeyParts(plan.runId, planId, queue[i].ref);
    assert IsAmong(C.Proposed(plan.json), queue[i].ref, call);
  }

  lemma {:induction false} StaysProposed(s: System, op: Op, call: WriteRequest)
    requires IsProposed(call, s.rows)
    ensures IsProposed(call, Step(s, op).rows)
  {
    var p := call.key[45..81];
    ProposalsKept(s, op, p);
    assert C.Proposed(Step(s, op).rows[p].json) == C.Proposed(s.rows[p].json);
  }

  /**
   * Over every interleaving, a provider is asked only for what a stored plan proposes: for every call there is a plan
   * of that run and a proposal of it with this tool, target and payload.
   */
  lemma {:induction false} CallsAreProposed(s: System, ops: seq<Op>)
    requires Initial(s)
    ensures forall call | call in Run(s, ops).effects.calls :: IsProposed(call, Run(s, ops).rows)
  {
    if ops != [] {
      var last := |ops| - 1;
      var before := Run(s, ops[..last]);
      CallsAreProposed(s, ops[..last]);
      AlwaysSound(s, ops[..last]);
      forall call | call in Run(s, ops).effects.calls ensures IsProposed(call, Run(s, ops).rows) {
        NewCallIsProposed(before, ops[last], call);
        StaysProposed(before, ops[last], call);
      }
    }
  }

  lemma {:induction false} NewCallIsProposed(s: System, op: Op, call: WriteRequest)
    requires Sound(s) && call in Step(s, op).effects.calls
    requires forall earlier | earlier in s.effects.calls :: IsProposed(earlier, s.rows)
    ensures IsProposed(call, s.rows)
  {
    if call !in s.effects.calls {
      EffectsOnlyWhileConfirmed(s, op);
      var i :| 0 <= i < |Step(s, op).effects.calls| && Step(s, op).effects.calls[i] == call;
      QueuedIsProposed(s, op.planId, call);
    }
  }

  /** A row can only appear while its plan is confirmed: before the run reached this state, there was such a state. */
  lemma {:induction false} RowsOfConfirmedPlans(s: System, ops: seq<Op>, key: string) returns (n: nat)
    requires Initial(s) && key in Run(s, ops).effects.ledger
    ensures n < |ops|
    ensures var earlier := Run(s, ops[..n]);
            && key !in earlier.effects.ledger && key in Step(earlier, ops[n]).effects.ledger
            && BelongsTo(key, earlier.rows) && key[45..81] == ops[n].planId
            && earlier.rows[ops[n].planId].status.Confirmed? && earlier.rows[ops[n].planId].json.confirmation.Some?
  {
    var last := |ops| - 1;
    AlwaysSound(s, ops[..last]);
    if key in Run(s, ops[..last]).effects.ledger {
      n := RowsOfConfirmedPlans(s, ops[..last], key);
      assert ops[..last][..n] == ops[..n];
    } else {
      n := last;
      NewRowsSound(Run(s, ops[..last]), ops[last], key);
    }
  }

  ghost predicate NoSelections(ops: seq<Op>) {
    forall op | op in ops :: !op.Select?
  }

  lemma {:induction false} StepKeepsRowsOfExecuted(s: System, op: Op)
    requires Sound(s) && RowsOnlyOfExecuted(s) && !op.Select?
    ensures RowsOnlyOfExecuted(Step(s, op))
  {
    var after := Step(s, op);
    forall key | key in after.effects.ledger
      ensures BelongsTo(key, after.rows)
      ensures after.rows[key[45..81]].status.Confirmed? || IsTerminal(after.rows[key[45..81]].status)
    {
      if key in s.effects.ledger {
        StatusMoves(s, op, key[45..81]);
      } else {
        NewRowsSound(s, op, key);
        StatusMoves(s, op, op.planId);
      }
    }
  }

  /**
   * Without selections, a plan that is reviewed, selected or declined has never had a row, and so never a provider
   * call.
   */
  lemma {:induction false} OnlyConfirmedPlansAct(s: System, ops: seq<Op>, p: Id, ref: string)
    requires Initial(s) && NoSelections(ops) && p in Run(s, ops).rows
    ensures RowsOnlyOfExecuted(Run(s, ops))
    ensures var now := Run(s, ops);
            var key := C.IdempotencyKey(now.rows[p].runId, p, ref);
            !now.rows[p].status.Confirmed? && !IsTerminal(now.rows[p].status) ==>
              key !in now.effects.ledger && forall i | 0 <= i < |now.effects.calls| :: now.effects.calls[i].key != key
  {
    RowsOverRun(s, ops);
    AlwaysSound(s, ops);
    C.KeyParts(Run(s, ops).rows[p].runId, p, ref);
  }

  lemma {:induction false} RowsOverRun(s: System, ops: seq<Op>)
    requires Initial(s) && NoSelections(ops)
    ensures RowsOnlyOfExecuted(Run(s, ops))
  {
    if ops != [] {
      var last := |ops| - 1;
      RowsOverRun(s, ops[..last]);
      AlwaysSound(s, ops[..last]);
      StepKeepsRowsOfExecuted(Run(s, ops[..last]), ops[last]);
    }
  }

  // ---- resuming a confirmed plan -------------------------------------------------------------------

  ghost function BreakOffs(runId: Id, planId: Id, attempts: seq<W.Attempt>): seq<Op> {
    seq(|attempts|, i requires 0 <= i < |attempts| => BreakOff(runId, planId, attempts[i]))
  }

  /** A plan confirmed for the first time starts with keys that no row has. */
  lemma {:induction false} FreshlyConfirmed(s: System, op: Op, answer: WriteRequest -> Answer)
    requires Sound(s) && op.Confirm? && op.planId in s.rows
    requires s.rows[op.planId].status.Selected? && s.rows[op.planId].json.confirmation.None?
    requires C.Confirm(s.rows, op.runId, op.planId, op.actor, op.source).1.Ok?
    ensures var after := Step(s, op);
            && E.QueuedActions(after.rows[op.planId].json).Ok?
            && W.Fresh(SagaOf(after, op.planId, answer))
            && (E.LoadProblem(after.rows, op.runId, op.planId).None? <==>
                s.rows[op.planId].json.provider.Str? && s.rows[op.planId].json.provider.s != "")
  {
    var after := Step(s, op);
    ConfirmedPlanIsExecutable(s.rows, op.runId, op.planId, op.actor, op.source);
    ConfirmHoldsActions(s, op, op.planId);
    KeysWithoutRows(s, after.rows[op.planId], op.planId);
  }

  lemma {:induction false} KeysWithoutRows(s: System, plan: Plan, planId: Id)
    requires Sound(s) && planId in s.rows && s.rows[planId].json.confirmation.None?
    requires HoldsConfirmedActions(plan, planId) && E.QueuedActions(plan.json).Ok?
    ensures var queue := E.QueuedActions(plan.json).value;
            && (forall i | 0 <= i < |queue| ::
                  queue[i].key !in s.effects.ledger && queue[i].key != "" && queue[i].target != "")
            && (forall i, j | 0 <= i < j < |queue| :: queue[i].key != queue[j].key)
  {
    QueueOfConfirmed(plan, planId);
    var queue := E.QueuedActions(plan.json).value;
    forall i | 0 <= i < |queue| ensures queue[i].key !in s.effects.ledger && queue[i].key != "" {
      UnconfirmedHasNoRow(s, plan.runId, planId, queue[i].ref);
    }
  }

  lemma {:induction false} UnconfirmedHasNoRow(s: System, runId: Id, planId: Id, ref: string)
    requires Sound(s) && planId in s.rows && s.rows[planId].json.confirmation.None?
    ensures C.IdempotencyKey(runId, planId, ref) != "" && C.IdempotencyKey(runId, planId, ref) !in s.effects.ledger
  {
    var key := C.IdempotencyKey(runId, planId, ref);
    C.KeyParts(runId, planId, ref);
    assert key in s.effects.ledger ==> RowSound(s, key);
  }

  lemma {:induction false} BreakOffsAreAttempts(s: System, runId: Id, planId: Id, answer: WriteRequest -> Answer,
      attempts: seq<W.Attempt>)
    requires Starts(s, runId, planId)
    ensures Run(s, BreakOffs(runId, planId, attempts))
            == s.(effects := W.AfterAttempts(SagaOf(s, planId, answer), attempts))
  {
    if attempts != [] {
      var last := |attempts| - 1;
      BreakOffsAreAttempts(s, runId, planId, answer, attempts[..last]);
      assert BreakOffs(runId, planId, attempts)[..last] == BreakOffs(runId, planId, attempts[..last]);
    }
  }

  /** The keys of a plan that may be executed are distinct, and the rows under them are rows of its run. */
  lemma {:induction false} StartedSagaIsKeyed(s: System, runId: Id, planId: Id, answer: WriteRequest -> Answer)
    requires Sound(s) && Starts(s, runId, planId)
    ensures W.Keyed(SagaOf(s, planId, answer))
  {
    var plan := s.rows[planId];
    QueueOfConfirmed(plan, planId);
    var queue := E.QueuedActions(plan.json).value;
    forall i | 0 <= i < |queue|
      ensures queue[i].key != ""
      ensures queue[i].key in s.effects.ledger ==> s.effects.ledger[queue[i].key].runId == plan.runId
    {
      C.KeyParts(plan.runId, planId, queue[i].ref);
      if queue[i].key in s.effects.ledger {
        assert RowSound(s, queue[i].key);
      }
    }
  }

  /** What completing a broken-off execution gives, compared with executing the plan at once. */
  ghost predicate ResumesAsOneRun(s: System, runId: Id, planId: Id, attempts: seq<W.Attempt>, world: World)
    requires Starts(s, runId, planId)
  {
    var saga := SagaOf(s, planId, world.answer);
    var broken := Run(s, BreakOffs(runId, planId, attempts));
    var once := E.Execute(s.rows, s.effects, runId, planId, world);
    var resumed := E.Execute(broken.rows, broken.effects, runId, planId, world);
    && (resumed.2.Ok? <==> !K.MeetsUnsettledRow(saga, world, broken.effects))
    && (K.CutShort(saga, attempts) ==> resumed == (broken.rows, broken.effects, Err(E.UnsupportedLedgerStatus)))
    && (K.StartsSettled(saga) ==> once.2.Ok? && (resumed.2.Ok? <==> !K.CutShort(saga, attempts)))
    && (!K.CutShort(saga, attempts) ==>
          && (resumed.2.Ok? && once.2.Ok? ==>
                (SameOutcomes(resumed.2.value, once.2.value) <==> K.RefusedAlike(saga, world, broken.effects)))
          && (K.RefusedAlike(saga, world, broken.effects) ==> SameExecution(planId, resumed, once)))
  }

  ghost predicate SameOutcomes(a: ExecutionResult, b: ExecutionResult) {
    W.Outcomes(a.actionResults) == W.Outcomes(b.actionResults)
  }

  /** The same error, or results that differ at most in which actions are marked as replayed; and the same effects. */
  ghost predicate SameExecution(
      planId: Id, a: (PlanRows, Effects, Result<ExecutionResult, E.ExecutionError>),
      b: (PlanRows, Effects, Result<ExecutionResult, E.ExecutionError>)) {
    && a.1 == b.1
    && (a.2.Ok? <==> b.2.Ok?) && (a.2.Err? ==> a.2 == b.2)
    && (a.2.Ok? && b.2.Ok? ==>
          && SameOutcomes(a.2.value, b.2.value) && K.SameSummary(a.2.value, b.2.value)
          && planId in a.0 && planId in b.0 && a.0[planId].status == b.0[planId].status)
  }

  /** What an execution stores and returns after its walk. */
  ghost function Finished(rows: PlanRows, planId: Id, walk: E.Walk)
    : (PlanRows, Effects, Result<ExecutionResult, E.ExecutionError>)
    requires planId in rows
  {
    if walk.raised then (rows, walk.effects, Err(E.UnsupportedLedgerStatus))
    else (E.Persisted(rows, planId, Summary(walk.results)), walk.effects, Ok(Summary(walk.results)))
  }

  ghost function Summary(results: seq<ActionResult>): (summary: ExecutionResult)
    ensures summary.actionResults == results
  {
    if results == [] then E.SKIPPED_RESULT else E.Summarize(results)
  }

  lemma {:induction false} ExecuteIsFinal(s: System, runId: Id, planId: Id, world: World, effects: Effects)
    requires Starts(s, runId, planId)
    ensures E.Execute(s.rows, effects, runId, planId, world)
            == Finished(s.rows, planId, W.Final(SagaOf(s, planId, world.answer), world, effects))
  {
    var saga := SagaOf(s, planId, world.answer);
    if !W.Final(saga, world, effects).raised {
      R.WalkShape(W.ContextFrom(saga, world, effects), saga.actions, effects);
    }
  }

  lemma {:induction false} FinishedAlike(rows: PlanRows, planId: Id, a: E.Walk, b: E.Walk)
    requires planId in rows && K.SameEnd(a, b)
    ensures SameExecution(planId, Finished(rows, planId, a), Finished(rows, planId, b))
  {
    assert |W.Outcomes(a.results)| == |a.results| && |W.Outcomes(b.results)| == |b.results|;
  }

  lemma {:induction false} SagaResumes(
      s: System, runId: Id, planId: Id, attempts: seq<W.Attempt>, world: World)
    requires Starts(s, runId, planId) && W.Keyed(SagaOf(s, planId, world.answer))
    requires forall a | a in attempts :: a.world.answer == world.answer
    ensures ResumesAsOneRun(s, runId, planId, attempts, world)
  {
    var saga := SagaOf(s, planId, world.answer);
    var e := W.AfterAttempts(saga, attempts);
    BreakOffsAreAttempts(s, runId, planId, world.answer, attempts);
    ExecuteIsFinal(s, runId, planId, world, s.effects);
    ExecuteIsFinal(s, runId, planId, world, e);
    K.ResumeIsBrokenOffExactly(saga, attempts, world);
    K.ResumeIsBrokenOffExactly(saga, [], world);
    if !K.CutShort(saga, attempts) {
      K.CrashResumeRefinesOneRun(saga, attempts, world);
      if K.RefusedAlike(saga, world, e) {
        FinishedAlike(s.rows, planId, W.Final(saga, world, e), W.Final(saga, world, s.effects));
      }
    }
  }

  /**
   * End to end, from any reachable state in which a plan may be executed: its execution breaks off any number of times,
   * anywhere, and is then completed. It completes exactly when it meets no unsettled row; a call that was cut short
   * leaves one. Otherwise the completed execution has the outcomes of one that was never broken off exactly when the
   * first action that does not succeed in one of them is refused to both or to neither; then the summary, plan status,
   * ledger and provider calls agree too.
   */
  lemma {:induction false} StartedPlanResumes(
      s: System, runId: Id, planId: Id, attempts: seq<W.Attempt>, world: World)
    requires Sound(s) && Starts(s, runId, planId)
    requires forall a | a in attempts :: a.world.answer == world.answer
    ensures ResumesAsOneRun(s, runId, planId, attempts, world)
  {
    StartedSagaIsKeyed(s, runId, planId, world.answer);
    SagaResumes(s, runId, planId, attempts, world);
  }

  /**
   * In particular for a plan that was just confirmed, for the first time or after it was executed and selected again:
   * the rows of the earlier execution are replayed by the resumed execution and by the uninterrupted one alike.
   */
  lemma {:induction false} ConfirmedPlanResumes(s: System, op: Op, attempts: seq<W.Attempt>, world: World)
    requires Sound(s) && op.Confirm? && op.planId in s.rows
    requires s.rows[op.planId].status.Selected?
    requires C.Confirm(s.rows, op.runId, op.planId, op.actor, op.source).1.Ok?
    requires s.rows[op.planId].json.provider.Str? && s.rows[op.planId].json.provider.s != ""
    requires forall a | a in attempts :: a.world.answer == world.answer
    ensures var confirmed := Step(s, op);
            && Starts(confirmed, op.runId, op.planId)
            && ResumesAsOneRun(confirmed, op.runId, op.planId, attempts, world)
  {
    ConfirmedPlanIsExecutable(s.rows, op.runId, op.planId, op.actor, op.source);
    StepKeepsSound(s, op);
    StartedPlanResumes(Step(s, op), op.runId, op.planId, attempts, world);
  }
}
