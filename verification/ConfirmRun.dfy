/**
 * The request that confirms a run: confirmation, execution and feedback inside one database transaction. When one of
 * them raises, the rows of plans and of the Action Ledger are rolled back; provider calls are not.
 */
module ConfirmRun {
  import opened Wrappers
  import opened Gateway
  import opened Plans
  import opened SagaProtocol
  import opened ConfirmExecute
  import C = Confirmations
  import E = Execution
  import F = FeedbackWriting
  import R = ExecutionResults
  import K = CrashResume
  import W = CrashWalks

  /** Everything one request brings with it; `runs` are the stored runs. */
  datatype Request = Request(runs: set<Id>, runId: Id, planId: Id, actor: string, world: World)

  datatype Outcome = Outcome(system: System, committed: bool)

  /** The stored rows as before the request; what the providers were asked stays asked. */
  ghost function RolledBack(before: System, calls: seq<WriteRequest>): Outcome {
    Outcome(System(before.rows, Effects(before.effects.ledger, calls)), false)
  }

  ghost function Confirming(r: Request): Op {
    Op.Confirm(r.runId, r.planId, r.actor, "web-demo-api")
  }

  /** `confirm_run` for a run that is stored or not, once its plan is resolved. */
  ghost function ConfirmRun(s: System, r: Request): Outcome
    requires r.planId in s.rows
  {
    var plan := s.rows[r.planId];
    if r.runId !in r.runs then RolledBack(s, s.effects.calls)
    else if plan.json.execution.Some? && plan.json.feedback.Some? then Outcome(s, true)
    else if plan.status.Declined? then RolledBack(s, s.effects.calls)
    else
      var (rows, confirmation) := C.Confirm(s.rows, r.runId, r.planId, r.actor, "web-demo-api");
      if confirmation.Err? then RolledBack(s, s.effects.calls) else ExecuteAndReport(s, rows, r)
  }

  ghost function ExecuteAndReport(s: System, confirmed: PlanRows, r: Request): Outcome {
    var (rows, effects, result) := E.Execute(confirmed, s.effects, r.runId, r.planId, r.world);
    if result.Err? then RolledBack(s, effects.calls)
    else
      var (reported, feedback) := F.WriteFeedback(rows, r.runs, r.runId, r.planId);
      if feedback.Err? then RolledBack(s, effects.calls) else Outcome(System(reported, effects), true)
  }

  /**
   * A request that gets as far as executing: an existing run, a plan that names a provider and is selected and accepted
   * now, or was confirmed before and not executed since.
   */
  ghost predicate Executes(s: System, r: Request) {
    && Sound(s) && r.planId in s.rows && r.runId in r.runs
    && !(s.rows[r.planId].json.execution.Some? && s.rows[r.planId].json.feedback.Some?)
    && C.Confirm(s.rows, r.runId, r.planId, r.actor, "web-demo-api").1.Ok?
    && s.rows[r.planId].json.provider.Str? && s.rows[r.planId].json.provider.s != ""
  }

  /** Such a request for a plan that was never confirmed or executed before. */
  ghost predicate FirstRequest(s: System, r: Request) {
    Executes(s, r) && s.rows[r.planId].json.confirmation.None? && s.rows[r.planId].json.execution.None?
  }

  ghost function ResultOf(s: System, r: Request): Result<ExecutionResult, E.ExecutionError> {
    E.Execute(Step(s, Confirming(r)).rows, s.effects, r.runId, r.planId, r.world).2
  }

  lemma {:induction false} ConfirmingStarts(s: System, r: Request)
    requires Executes(s, r)
    ensures Sound(Step(s, Confirming(r))) && Starts(Step(s, Confirming(r)), r.runId, r.planId)
  {
    StepKeepsSound(s, Confirming(r));
    if s.rows[r.planId].status.Selected? {
      ConfirmedPlanIsExecutable(s.rows, r.runId, r.planId, r.actor, "web-demo-api");
    } else {
      ConfirmedPlanStarts(s, r.runId, r.planId);
    }
  }

  /** A plan that is confirmed, reviewed and selected, and that names a provider, may be executed. */
  lemma {:induction false} ConfirmedPlanStarts(s: System, runId: Id, planId: Id)
    requires Sound(s) && planId in s.rows && s.rows[planId].status.Confirmed?
    requires C.LoadProblem(s.rows, runId, planId).None? && C.ReviewProblem(s.rows[planId].json).None?
    requires s.rows[planId].json.provider.Str? && s.rows[planId].json.provider.s != ""
    ensures Starts(s, runId, planId)
  {
    var plan := s.rows[planId];
    assert HoldsConfirmedActions(plan, planId);
    StoredActionsAreQueued(plan, planId);
  }

  lemma {:induction false} StoredActionsAreQueued(plan: Plan, planId: Id)
    requires HoldsConfirmedActions(plan, planId)
    ensures E.QueuedActions(plan.json).Ok?
  {
    ConfirmedQueue(plan.json, plan.runId, planId, "", "");
  }

  /** The saga that the request confirms and executes. */
  ghost function RequestedSaga(s: System, r: Request): (saga: W.Saga)
    requires Executes(s, r)
    ensures W.Keyed(saga) && saga.start == s.effects && saga.answer == r.world.answer
  {
    ConfirmingStarts(s, r);
    StartedSagaIsKeyed(Step(s, Confirming(r)), r.runId, r.planId, r.world.answer);
    SagaOf(Step(s, Confirming(r)), r.planId, r.world.answer)
  }

  lemma {:induction false} FirstSagaIsFresh(s: System, r: Request)
    requires FirstRequest(s, r)
    ensures W.Fresh(RequestedSaga(s, r))
  {
    assert s.rows[r.planId].status.Confirmed? ==> HoldsConfirmedActions(s.rows[r.planId], r.planId);
    FreshlyConfirmed(s, Confirming(r), r.world.answer);
  }

  /** Executing the request is one walk of its saga. */
  lemma {:induction false} ExecutingIsWalking(s: System, r: Request)
    requires Executes(s, r)
    ensures var walk := W.Final(RequestedSaga(s, r), r.world, s.effects);
            var confirmed := Step(s, Confirming(r)).rows;
            var (_, effects, result) := E.Execute(confirmed, s.effects, r.runId, r.planId, r.world);
            && effects == walk.effects
            && (result.Ok? <==> !walk.raised)
            && (result.Ok? ==> result.value.actionResults == walk.results && R.FromWorkflow(result.value))
  {
    ConfirmingStarts(s, r);
    ExecuteIsFinal(Step(s, Confirming(r)), r.runId, r.planId, r.world, s.effects);
    if ResultOf(s, r).Ok? {
      R.ExecuteStoresWorkflowResult(Step(s, Confirming(r)).rows, s.effects, r.runId, r.planId, r.world);
    }
  }

  lemma {:induction false} ExecutedIsPersisted(s: System, r: Request)
    requires Executes(s, r) && ResultOf(s, r).Ok?
    ensures var confirmed := Step(s, Confirming(r)).rows;
            && E.LoadProblem(confirmed, r.runId, r.planId).None?
            && E.Execute(confirmed, s.effects, r.runId, r.planId, r.world).0
               == E.Persisted(confirmed, r.planId, ResultOf(s, r).value)
  {
    ConfirmingStarts(s, r);
    R.ExecuteStoresWorkflowResult(Step(s, Confirming(r)).rows, s.effects, r.runId, r.planId, r.world);
  }

  lemma {:induction false} ReportsExactly(s: System, confirmed: PlanRows, r: Request, result: ExecutionResult)
    requires E.LoadProblem(confirmed, r.runId, r.planId).None? && r.runId in r.runs
    requires E.Execute(confirmed, s.effects, r.runId, r.planId, r.world).0 == E.Persisted(confirmed, r.planId, result)
    requires E.Execute(confirmed, s.effects, r.runId, r.planId, r.world).2 == Ok(result)
    ensures ExecuteAndReport(s, confirmed, r).committed <==> F.FeedbackFor(result).Ok?
  {
    var rows := E.Persisted(confirmed, r.planId, result);
    assert F.LoadProblem(rows, r.runs, r.runId, r.planId).None?;
    assert rows[r.planId].json.execution == Some(result);
  }

  // ---- which requests commit -----------------------------------------------------------------------

  /** The first action of the request that does not succeed, or their number: told by its plan, rows and world. */
  ghost function FirstStop(s: System, r: Request): nat
    requires Executes(s, r)
  {
    W.StopsAt(RequestedSaga(s, r), r.world, 0, |RequestedSaga(s, r).actions|)
  }

  /** At most the last action fails, and no action meets an unsettled row. */
  ghost predicate FailsAtMostLast(s: System, r: Request)
    requires Executes(s, r)
  {
    var n := |RequestedSaga(s, r).actions|;
    FirstStop(s, r) + 1 >= n && !W.BreaksAt(RequestedSaga(s, r), r.world, 0, n)
  }

  lemma {:induction false} WalkOfRequest(s: System, r: Request)
    requires Executes(s, r)
    ensures var saga := RequestedSaga(s, r);
            W.WalkedTo(saga, r.world, 0, |saga.actions|, W.Final(saga, r.world, s.effects))
  {
    K.ResumedOutcomes(RequestedSaga(s, r), r.world, 0);
  }

  /** Where a walk stops is where its results have their first failure. */
  lemma {:induction false} StopIsFirstFailure(saga: W.Saga, world: World, w: E.Walk)
    requires W.WalkedTo(saga, world, 0, |saga.actions|, w) && !w.raised
    ensures E.FirstFailure(w.results) == W.StopsAt(saga, world, 0, |saga.actions|)
  {
    var n := |saga.actions|;
    var f := W.StopsAt(saga, world, 0, n);
    W.StopsAtFirst(saga, world, 0, n);
    R.FirstFailureIsFirst(w.results);
    assert forall i | 0 <= i < n :: w.results[i].status == W.OutcomeOf(w.results[i]).status;
    assert forall i | 0 <= i < f :: W.OutcomeOf(w.results[i]) == W.OutcomeAt(saga, world, 0, i);
    if f < n {
      assert W.OutcomeOf(w.results[f]) == W.OutcomeAt(saga, world, 0, f);
    }
  }

  lemma {:induction false} CountedExactly(saga: W.Saga, world: World, result: ExecutionResult)
    requires R.FromWorkflow(result)
    requires E.FirstFailure(result.actionResults) == W.StopsAt(saga, world, 0, |saga.actions|)
    requires |result.actionResults| == |saga.actions|
    ensures result.succeededCount + result.failedCount == |result.actionResults| <==>
            W.StopsAt(saga, world, 0, |saga.actions|) + 1 >= |saga.actions|
  {
    R.CountsOfShape(result.actionResults);
  }

  lemma {:induction false} CommitsWhenReported(s: System, r: Request)
    requires Executes(s, r)
    ensures ConfirmRun(s, r).committed <==>
            && ResultOf(s, r).Ok? && R.FromWorkflow(ResultOf(s, r).value)
            && ResultOf(s, r).value.succeededCount + ResultOf(s, r).value.failedCount
               == |ResultOf(s, r).value.actionResults|
  {
    if ResultOf(s, r).Ok? {
      ExecutingIsWalking(s, r);
      ExecutedIsPersisted(s, r);
      ReportsExactly(s, Step(s, Confirming(r)).rows, r, ResultOf(s, r).value);
      F.AcceptedExactly(ResultOf(s, r).value);
    }
  }

  /**
   * When a request commits, told before it is sent: exactly when no action but the last one fails, and none meets a row
   * that an interrupted execution left pending.
   */
  lemma {:induction false} CommitsExactly(s: System, r: Request)
    requires Executes(s, r)
    ensures ConfirmRun(s, r).committed <==> FailsAtMostLast(s, r)
  {
    var saga := RequestedSaga(s, r);
    var walk := W.Final(saga, r.world, s.effects);
    WalkOfRequest(s, r);
    ExecutingIsWalking(s, r);
    CommitsWhenReported(s, r);
    if !walk.raised {
      StopIsFirstFailure(saga, r.world, walk);
      CountedExactly(saga, r.world, ResultOf(s, r).value);
    }
  }

  /** The run was executed and reported before. */
  ghost predicate IsFinished(plan: Plan) {
    plan.json.execution.Some? && plan.json.feedback.Some?
  }

  /**
   * Requests that execute nothing: of a run that is not stored, or of a plan that cannot be confirmed, they fail; of a
   * finished plan, they succeed. Nobody is called, and nothing is stored.
   */
  lemma {:induction false} EndsAtOnce(s: System, r: Request)
    requires r.planId in s.rows
    ensures r.runId !in r.runs ==> ConfirmRun(s, r) == Outcome(s, false)
    ensures r.runId in r.runs && IsFinished(s.rows[r.planId]) ==> ConfirmRun(s, r) == Outcome(s, true)
    ensures r.runId in r.runs && !IsFinished(s.rows[r.planId])
              && C.Confirm(s.rows, r.runId, r.planId, r.actor, "web-demo-api").1.Err? ==>
              ConfirmRun(s, r) == Outcome(s, false)
  {
  }

  /** What a request for a selected plan stores when it commits. */
  ghost predicate StoresAll(before: Plan, after: Plan, r: Request) {
    && after.json.confirmation == Some(Confirmation("confirmation:" + r.runId + ":" + r.planId, "confirmed", r.actor,
                                                    "web-demo-api", |C.Proposed(before.json)|))
    && after.json.execution.Some? && after.status == after.json.execution.value.planStatus
    && R.FromWorkflow(after.json.execution.value)
    && after.json.feedback.Some? && Ok(after.json.feedback.value) == F.FeedbackFor(after.json.execution.value)
    && after.runId == before.runId && after.selected == before.selected
    && after.json.draft == before.json.draft && after.json.provider == before.json.provider
  }

  lemma {:induction false} CommittedStoresAll(s: System, r: Request)
    requires Executes(s, r) && s.rows[r.planId].status.Selected? && ConfirmRun(s, r).committed
    ensures var rows := ConfirmRun(s, r).system.rows;
            && rows.Keys == s.rows.Keys && (forall p | p in rows && p != r.planId :: rows[p] == s.rows[p])
            && StoresAll(s.rows[r.planId], rows[r.planId], r)
  {
    ExecutedIsPersisted(s, r);
    ExecutingIsWalking(s, r);
    ReportedStores(s, Step(s, Confirming(r)).rows, r, ResultOf(s, r).value);
    ConfirmedStores(s, r);
  }

  /** What the confirmation contributes. */
  lemma {:induction false} ConfirmedStores(s: System, r: Request)
    requires Executes(s, r) && s.rows[r.planId].status.Selected?
    ensures var rows := Step(s, Confirming(r)).rows;
            && r.planId in rows && rows.Keys == s.rows.Keys
            && (forall p | p in rows && p != r.planId :: rows[p] == s.rows[p])
            && rows[r.planId].json.confirmation
               == Some(Confirmation("confirmation:" + r.runId + ":" + r.planId, "confirmed", r.actor, "web-demo-api",
                                    |C.Proposed(s.rows[r.planId].json)|))
            && rows[r.planId].runId == s.rows[r.planId].runId && rows[r.planId].selected == s.rows[r.planId].selected
            && rows[r.planId].json.draft == s.rows[r.planId].json.draft
            && rows[r.planId].json.provider == s.rows[r.planId].json.provider
  {
    C.ConfirmsExactly(s.rows, r.runId, r.planId, r.actor, "web-demo-api");
  }

  /** What execution and feedback contribute. */
  lemma {:induction false} ReportedStores(s: System, confirmed: PlanRows, r: Request, result: ExecutionResult)
    requires E.LoadProblem(confirmed, r.runId, r.planId).None? && r.runId in r.runs
    requires E.Execute(confirmed, s.effects, r.runId, r.planId, r.world).0 == E.Persisted(confirmed, r.planId, result)
    requires E.Execute(confirmed, s.effects, r.runId, r.planId, r.world).2 == Ok(result)
    requires ExecuteAndReport(s, confirmed, r).committed
    ensures F.FeedbackFor(result).Ok?
    ensures var plan := confirmed[r.planId];
            ExecuteAndReport(s, confirmed, r).system.rows
            == confirmed[r.planId := plan.(status := result.planStatus,
                                           json := plan.json.(execution := Some(result),
                                                              feedback := Some(F.FeedbackFor(result).value)))]
  {
    ReportsExactly(s, confirmed, r, result);
  }

  /** Nothing is broken off when no unsettled row is there. */
  lemma {:induction false} NeverBreaks(saga: W.Saga, world: World)
    requires W.Keyed(saga) && K.StartsSettled(saga)
    ensures !W.BreaksAt(saga, world, 0, |saga.actions|)
  {
    K.BreaksFromSettled(saga, world, 0);
    K.NoPendingWhenSettled(saga, world, 0);
  }

  // ---- what a rollback loses ---------------------------------------------------------------------

  /** The calls of a walk do not depend on the calls made before it; only the ledger matters. */
  lemma {:induction false} WalkFromLedger(c: E.Context, actions: seq<Action>, ledger: Ledger, calls: seq<WriteRequest>)
    ensures var w := E.WalkActions(c, actions, Effects(ledger, calls));
            var w0 := E.WalkActions(c, actions, Effects(ledger, []));
            && w.effects.ledger == w0.effects.ledger && w.effects.calls == calls + w0.effects.calls
            && w.asked == w0.asked && w.results == w0.results
            && w.priorFailure == w0.priorFailure && w.raised == w0.raised
  {
    if actions != [] {
      WalkFromLedger(c, actions[..|actions| - 1], ledger, calls);
    }
  }

  lemma {:induction false} ExecuteFromLedger(
      rows: PlanRows, ledger: Ledger, calls: seq<WriteRequest>, runId: Id, planId: Id, world: World)
    ensures var (rows1, effects1, result1) := E.Execute(rows, Effects(ledger, calls), runId, planId, world);
            var (rows0, effects0, result0) := E.Execute(rows, Effects(ledger, []), runId, planId, world);
            && rows1 == rows0 && result1 == result0
            && effects1.ledger == effects0.ledger && effects1.calls == calls + effects0.calls
  {
    if planId in rows && E.QueuedActions(rows[planId].json).Ok? {
      var c := E.ContextOf(rows[planId], world, Effects(ledger, []));
      WalkFromLedger(c, E.QueuedActions(rows[planId].json).value, ledger, calls);
    }
  }

  /** Two outcomes that differ only in the calls made before. */
  ghost predicate Extends(with: Outcome, calls: seq<WriteRequest>, without: Outcome) {
    && with.committed == without.committed
    && with.system.rows == without.system.rows
    && with.system.effects.ledger == without.system.effects.ledger
    && with.system.effects.calls == calls + without.system.effects.calls
  }

  ghost function WithCalls(s: System, calls: seq<WriteRequest>): System {
    System(s.rows, Effects(s.effects.ledger, calls))
  }

  lemma {:induction false} RequestFromLedger(s: System, r: Request, calls: seq<WriteRequest>)
    requires r.planId in s.rows
    ensures Extends(ConfirmRun(WithCalls(s, calls), r), calls, ConfirmRun(WithCalls(s, []), r))
  {
    ReportFromLedger(s, C.Confirm(s.rows, r.runId, r.planId, r.actor, "web-demo-api").0, r, calls);
  }

  lemma {:induction false} ReportFromLedger(s: System, confirmed: PlanRows, r: Request, calls: seq<WriteRequest>)
    ensures Extends(ExecuteAndReport(WithCalls(s, calls), confirmed, r), calls,
                    ExecuteAndReport(WithCalls(s, []), confirmed, r))
  {
    ExecuteFromLedger(confirmed, s.effects.ledger, calls, r.runId, r.planId, r.world);
  }

  /**
   * A request that does not commit forgets what it did: sending it again fails again, and makes every provider call
   * of the first time a second time.
   */
  lemma {:induction false} RolledBackRequestRepeatsItsCalls(s: System, r: Request) returns (made: seq<WriteRequest>)
    requires r.planId in s.rows && !ConfirmRun(s, r).committed
    ensures ConfirmRun(s, r) == Outcome(WithCalls(s, s.effects.calls + made), false)
    ensures ConfirmRun(ConfirmRun(s, r).system, r) == Outcome(WithCalls(s, s.effects.calls + made + made), false)
  {
    made := ConfirmRun(WithCalls(s, []), r).system.effects.calls;
    RequestFromLedger(s, r, s.effects.calls);
    assert s == WithCalls(s, s.effects.calls);
    RequestFromLedger(s, r, s.effects.calls + made);
  }

  /** So the promise of at most one call per key survives a request exactly when it commits or has called nobody. */
  lemma {:induction false} AtMostOnceNeedsTheCommit(s: System, r: Request)
    requires r.planId in s.rows && AtMostOnce(s.effects)
    ensures AtMostOnce(ConfirmRun(s, r).system.effects) <==>
            ConfirmRun(s, r).committed || ConfirmRun(s, r).system.effects == s.effects
  {
    var confirmed := C.Confirm(s.rows, r.runId, r.planId, r.actor, "web-demo-api").0;
    ExecuteCallsOnlyNewKeys(confirmed, s.effects, r);
    var after := ConfirmRun(s, r).system.effects;
    if !ConfirmRun(s, r).committed && after != s.effects {
      var calls := E.Execute(confirmed, s.effects, r.runId, r.planId, r.world).1.calls;
      assert after == Effects(s.effects.ledger, calls);
      assert |s.effects.calls| < |calls|;
      assert after.calls[|s.effects.calls|].key !in after.ledger;
    }
  }

  /** None of the first m actions leads to a provider call: those that are reached have a row, or are refused. */
  ghost predicate CallsNobody(saga: W.Saga, world: World, m: nat)
    requires m <= |saga.actions|
  {
    forall i | 0 <= i < m && i <= W.StopsAt(saga, world, 0, m) :: W.HasRow(saga, i) || W.Refuses(saga, world, 0, i)
  }

  lemma {:induction false} UptoCalls(saga: W.Saga, n: nat)
    requires n <= |saga.actions|
    ensures |saga.start.calls| <= |W.Upto(saga, n).calls|
    ensures |W.Upto(saga, n).calls| == |saga.start.calls| <==> forall i | 0 <= i < n :: W.HasRow(saga, i)
    ensures saga.start.calls <= W.Upto(saga, n).calls
  {
    if n > 0 {
      UptoCalls(saga, n - 1);
    }
  }

  lemma {:induction false} CallsNobodyExactly(saga: W.Saga, world: World, m: nat)
    requires m <= |saga.actions|
    ensures W.RowsAfter(saga, world, 0, m) <= |saga.actions|
    ensures CallsNobody(saga, world, m) <==> W.Upto(saga, W.RowsAfter(saga, world, 0, m)).calls == saga.start.calls
  {
    W.StopsAtFirst(saga, world, 0, m);
    UptoCalls(saga, W.RowsAfter(saga, world, 0, m));
  }

  /** When the promise of at most one call per key survives a request, told before it is sent. */
  lemma {:induction false} AtMostOnceExactly(s: System, r: Request)
    requires Executes(s, r)
    ensures var saga := RequestedSaga(s, r);
            AtMostOnce(ConfirmRun(s, r).system.effects) <==>
            FailsAtMostLast(s, r) || CallsNobody(saga, r.world, |saga.actions|)
  {
    var saga := RequestedSaga(s, r);
    CommitsExactly(s, r);
    AtMostOnceNeedsTheCommit(s, r);
    WalkOfRequest(s, r);
    ExecutingIsWalking(s, r);
    CallsNobodyExactly(saga, r.world, |saga.actions|);
  }

  /**
   * For a first request: it commits exactly when at most the last action fails. At most once survives it exactly then,
   * or when the very first action is refused.
   */
  lemma {:induction false} FirstRequestExactly(s: System, r: Request)
    requires FirstRequest(s, r)
    ensures var saga := RequestedSaga(s, r);
            var n, f := |saga.actions|, FirstStop(s, r);
            && ResultOf(s, r).Ok?
            && (ConfirmRun(s, r).committed <==> f + 1 >= n)
            && (AtMostOnce(ConfirmRun(s, r).system.effects) <==>
                f + 1 >= n || (f == 0 && W.Refuses(saga, r.world, 0, 0)))
  {
    FirstSagaIsFresh(s, r);
    FreshCallsNobody(RequestedSaga(s, r), r.world);
    NeverBreaks(RequestedSaga(s, r), r.world);
    WalkOfRequest(s, r);
    ExecutingIsWalking(s, r);
    CommitsExactly(s, r);
    AtMostOnceExactly(s, r);
  }

  lemma {:induction false} FreshCallsNobody(saga: W.Saga, world: World)
    requires W.Fresh(saga)
    ensures K.StartsSettled(saga)
    ensures var n := |saga.actions|;
            CallsNobody(saga, world, n) <==>
            n == 0 || (W.StopsAt(saga, world, 0, n) == 0 && W.Refuses(saga, world, 0, 0))
  {
    var n := |saga.actions|;
    W.StopsAtFirst(saga, world, 0, n);
    if W.StopsAt(saga, world, 0, n) > 0 {
      assert !W.Refuses(saga, world, 0, 0);
    }
  }

  /** Of at least two actions the first reaches its provider, which raises: one call is made, and its row is lost. */
  lemma {:induction false} FirstActionRaises(s: System, r: Request, detail: string)
    requires FirstRequest(s, r) && |RequestedSaga(s, r).actions| >= 2
    requires var saga := RequestedSaga(s, r);
             !W.Refuses(saga, r.world, 0, 0) && saga.answer(W.Request(saga, 0)) == Raised(detail)
    ensures ConfirmRun(s, r) == RolledBack(s, s.effects.calls + [W.Request(RequestedSaga(s, r), 0)])
    ensures !AtMostOnce(ConfirmRun(s, r).system.effects)
  {
    var saga := RequestedSaga(s, r);
    FirstSagaIsFresh(s, r);
    StopsAtRaisedFirst(saga, r.world, |saga.actions|);
    FirstRequestExactly(s, r);
    WalkOfRequest(s, r);
    ExecutingIsWalking(s, r);
    assert W.Upto(saga, 1).calls == s.effects.calls + [W.Request(saga, 0)];
  }

  lemma {:induction false} StopsAtRaisedFirst(saga: W.Saga, world: World, m: nat)
    requires 0 < m <= |saga.actions| && !W.HasRow(saga, 0) && !W.Refuses(saga, world, 0, 0)
    requires saga.answer(W.Request(saga, 0)).Raised?
    ensures W.StopsAt(saga, world, 0, m) == 0 && W.RowsAfter(saga, world, 0, m) == 1
  {
    if m > 1 {
      StopsAtRaisedFirst(saga, world, m - 1);
    }
  }

  // ---- requests that are killed --------------------------------------------------------------------

  /** What `Executes` comes to, also where the ledger has lost rows. */
  ghost predicate Reaches(s: System, r: Request)
    requires r.planId in s.rows
  {
    && r.runId in r.runs && !(s.rows[r.planId].json.execution.Some? && s.rows[r.planId].json.feedback.Some?)
    && C.Confirm(s.rows, r.runId, r.planId, r.actor, "web-demo-api").1.Ok?
    && Starts(Step(s, Confirming(r)), r.runId, r.planId)
  }

  /**
   * A request that dies while it executes, or after that but before it commits: its rows are lost, its calls are not.
   */
  ghost function Killed(s: System, r: Request, crash: W.Crash): System
    requires r.planId in s.rows
  {
    if !Reaches(s, r) then s
    else
      var saga := SagaOf(Step(s, Confirming(r)), r.planId, r.world.answer);
      RolledBack(s, W.Interrupted(saga, W.Attempt(r.world, crash), s.effects).calls).system
  }

  /** At most once survives a killed request exactly when it died before it reached a provider. */
  lemma {:induction false} KilledExactly(s: System, r: Request, crash: W.Crash)
    requires Executes(s, r)
    ensures var saga := RequestedSaga(s, r);
            var a := W.Attempt(r.world, crash);
            AtMostOnce(Killed(s, r, crash).effects) <==>
            CallsNobody(saga, r.world, W.StopsBefore(saga, a)) && !(K.CallsAt(saga, a, 0) && crash.insideCall.value)
  {
    var saga := RequestedSaga(s, r);
    var a := W.Attempt(r.world, crash);
    ConfirmingStarts(s, r);
    InterruptedCallsNewKeys(saga, a);
    LostRows(s.effects, W.Interrupted(saga, a, s.effects).calls);
    LostCalls(saga, a);
  }

  /** When the rows are lost, only calls that were not made keep the promise. */
  lemma {:induction false} LostRows(before: Effects, calls: seq<WriteRequest>)
    requires AtMostOnce(before) && before.calls <= calls
    requires forall i | |before.calls| <= i < |calls| :: calls[i].key !in before.ledger
    ensures AtMostOnce(Effects(before.ledger, calls)) <==> calls == before.calls
  {
    if |before.calls| < |calls| {
      assert calls[|before.calls|].key !in before.ledger;
    }
  }

  lemma {:induction false} LostCalls(saga: W.Saga, a: W.Attempt)
    requires W.Keyed(saga) && a.world.answer == saga.answer
    ensures W.Interrupted(saga, a, saga.start).calls == saga.start.calls <==>
            CallsNobody(saga, a.world, W.StopsBefore(saga, a)) && !(K.CallsAt(saga, a, 0) && a.crash.insideCall.value)
  {
    var m := W.StopsBefore(saga, a);
    K.InterruptedSettled(saga, 0, a);
    CallsNobodyExactly(saga, a.world, m);
    UptoCalls(saga, m);
  }

  lemma {:induction false} InterruptedCallsNewKeys(saga: W.Saga, a: W.Attempt)
    requires AtMostOnce(saga.start)
    ensures var after := W.Interrupted(saga, a, saga.start);
            && saga.start.calls <= after.calls
            && forall i | |saga.start.calls| <= i < |after.calls| :: after.calls[i].key !in saga.start.ledger
  {
    var c := W.ContextFrom(saga, a.world, saga.start);
    WalkCallsOnlyNewKeys(c, saga.actions[..W.StopsBefore(saga, a)], saga.start);
  }

  /**
   * Nothing remembers the killed request: sent again it has the outcome of a request that was never killed, and makes
   * all its calls behind those that were made before.
   */
  lemma {:induction false} KilledIsForgotten(s: System, r: Request, crash: W.Crash)
    requires r.planId in s.rows
    ensures var once, again := ConfirmRun(s, r), ConfirmRun(Killed(s, r, crash), r);
            && again.committed == once.committed && again.system.rows == once.system.rows
            && again.system.effects.ledger == once.system.effects.ledger
            && s.effects.calls <= once.system.effects.calls
            && again.system.effects.calls
               == Killed(s, r, crash).effects.calls + once.system.effects.calls[|s.effects.calls|..]
  {
    RequestFromLedger(s, r, s.effects.calls);
    assert s == WithCalls(s, s.effects.calls);
    RequestFromLedger(s, r, Killed(s, r, crash).effects.calls);
  }

  // ---- the execution calls new keys only -----------------------------------------------------------

  /** Whoever was called during an execution had no row before it, and has one afterwards. */
  lemma {:induction false} ExecuteCallsOnlyNewKeys(rows: PlanRows, effects: Effects, r: Request)
    requires AtMostOnce(effects)
    ensures var after := E.Execute(rows, effects, r.runId, r.planId, r.world).1;
            && AtMostOnce(after) && effects.calls <= after.calls
            && (forall i | |effects.calls| <= i < |after.calls| :: after.calls[i].key !in effects.ledger)
            && (after.calls == effects.calls ==> after == effects)
  {
    if r.planId in rows && E.QueuedActions(rows[r.planId].json).Ok? {
      var c := E.ContextOf(rows[r.planId], r.world, effects);
      WalkCallsOnlyNewKeys(c, E.QueuedActions(rows[r.planId].json).value, effects);
    }
  }

  lemma {:induction false} WalkCallsOnlyNewKeys(c: E.Context, actions: seq<Action>, start: Effects)
    requires AtMostOnce(start)
    ensures var after := E.WalkActions(c, actions, start).effects;
            && AtMostOnce(after) && start.calls <= after.calls && start.ledger.Keys <= after.ledger.Keys
            && (forall i | |start.calls| <= i < |after.calls| :: after.calls[i].key !in start.ledger)
            && (after.calls == start.calls ==> after == start)
  {
    if actions != [] {
      var last := |actions| - 1;
      WalkCallsOnlyNewKeys(c, actions[..last], start);
      var before := E.WalkActions(c, actions[..last], start);
      InvokeKeepsAtMostOnce(before.effects, before.asked, E.RequestFor(c, actions[last]), c.world);
      InvokeOnlyAddsItsRow(before.effects, before.asked, E.RequestFor(c, actions[last]), c.world);
    }
  }

  // ---- any number of requests ------------------------------------------------------------------------

  /** A request that is answered, or one that is killed. */
  datatype Sent = Sent(request: Request, killed: Option<W.Crash>)

  ghost function Send(s: System, m: Sent): System {
    if m.request.planId !in s.rows then s
    else if m.killed.Some? then Killed(s, m.request, m.killed.value)
    else ConfirmRun(s, m.request).system
  }

  ghost function SendAll(s: System, ms: seq<Sent>): System {
    if ms == [] then s else Send(SendAll(s, ms[..|ms| - 1]), ms[|ms| - 1])
  }

  /** Told before it is sent: it makes no call whose row is lost. */
  ghost predicate KeepsPromise(s: System, m: Sent) {
    Executes(s, m.request) ==>
      var saga := RequestedSaga(s, m.request);
      var world := m.request.world;
      if m.killed.None? then FailsAtMostLast(s, m.request) || CallsNobody(saga, world, |saga.actions|)
      else
        var a := W.Attempt(world, m.killed.value);
        CallsNobody(saga, world, W.StopsBefore(saga, a)) && !(K.CallsAt(saga, a, 0) && a.crash.insideCall.value)
  }

  /** A request that does not execute leaves everything as it was. */
  lemma {:induction false} OthersDoNothing(s: System, r: Request)
    requires Sound(s) && r.planId in s.rows && !Executes(s, r)
    ensures ConfirmRun(s, r).system == s && !Reaches(s, r)
  {
  }

  lemma {:induction false} OneSentExactly(s: System, m: Sent)
    requires Sound(s)
    ensures AtMostOnce(Send(s, m).effects) <==> KeepsPromise(s, m)
  {
    var r := m.request;
    if r.planId in s.rows {
      if !Executes(s, r) {
        OthersDoNothing(s, r);
      } else if m.killed.None? {
        AtMostOnceExactly(s, r);
      } else {
        KilledExactly(s, r, m.killed.value);
      }
    }
  }

  lemma {:induction false} CommittedIsARun(s: System, r: Request)
    requires r.planId in s.rows && ConfirmRun(s, r).committed && ConfirmRun(s, r).system != s
    ensures ConfirmRun(s, r).system
            == Step(Step(Step(s, Confirming(r)), Op.Execute(r.runId, r.planId, r.world)),
                    Op.WriteFeedback(r.runs, r.runId, r.planId))
  {
    var confirmed := Step(s, Confirming(r)).rows;
    assert Step(s, Confirming(r)) == System(confirmed, s.effects);
    assert ConfirmRun(s, r) == ExecuteAndReport(s, confirmed, r);
    ReportingIsTwoSteps(s, confirmed, r);
  }

  lemma {:induction false} ReportingIsTwoSteps(s: System, confirmed: PlanRows, r: Request)
    requires ExecuteAndReport(s, confirmed, r).committed
    ensures ExecuteAndReport(s, confirmed, r).system
            == Step(Step(System(confirmed, s.effects), Op.Execute(r.runId, r.planId, r.world)),
                    Op.WriteFeedback(r.runs, r.runId, r.planId))
  {
  }

  lemma {:induction false} KilledLosesCallsOnly(s: System, r: Request, crash: W.Crash)
    requires Sound(s) && r.planId in s.rows && AtMostOnce(Killed(s, r, crash).effects)
    ensures Killed(s, r, crash) == s
  {
    if Reaches(s, r) {
      var saga := SagaOf(Step(s, Confirming(r)), r.planId, r.world.answer);
      var a := W.Attempt(r.world, crash);
      InterruptedCallsNewKeys(saga, a);
      LostRows(s.effects, W.Interrupted(saga, a, s.effects).calls);
    }
  }

  lemma {:induction false} SentKeepsSound(s: System, m: Sent)
    requires Sound(s) && AtMostOnce(Send(s, m).effects)
    ensures Sound(Send(s, m))
  {
    var r := m.request;
    if r.planId in s.rows && m.killed.Some? {
      KilledLosesCallsOnly(s, r, m.killed.value);
    } else if r.planId in s.rows && ConfirmRun(s, r).system != s {
      AtMostOnceNeedsTheCommit(s, r);
      CommittedIsARun(s, r);
      var executing, writing := Op.Execute(r.runId, r.planId, r.world), Op.WriteFeedback(r.runs, r.runId, r.planId);
      StepKeepsSound(s, Confirming(r));
      StepKeepsSound(Step(s, Confirming(r)), executing);
      StepKeepsSound(Step(Step(s, Confirming(r)), executing), writing);
    }
  }

  /** Calls are only added, and every row that was added is the row of such a call. */
  ghost predicate CallsBehindRows(before: Effects, after: Effects) {
    && before.calls <= after.calls
    && forall key | key in after.ledger && key !in before.ledger ::
         exists i | |before.calls| <= i < |after.calls| :: after.calls[i].key == key
  }

  lemma {:induction false} WalkCallsBehindRows(c: E.Context, actions: seq<Action>, start: Effects)
    ensures CallsBehindRows(start, E.WalkActions(c, actions, start).effects)
  {
    if actions != [] {
      var last := |actions| - 1;
      var before := E.WalkActions(c, actions[..last], start);
      WalkCallsBehindRows(c, actions[..last], start);
      InvokeBehindRows(start, before.effects, before.asked, E.RequestFor(c, actions[last]), c.world);
    }
  }

  lemma {:induction false} InvokeBehindRows(
      start: Effects, before: Effects, asked: seq<WriteRequest>, r: WriteRequest, world: World)
    requires CallsBehindRows(start, before)
    ensures CallsBehindRows(start, Invoke(before, asked, r, world).0)
  {
    var after := Invoke(before, asked, r, world).0;
    InvokeOnlyAddsItsRow(before, asked, r, world);
    forall key | key in after.ledger && key !in start.ledger
      ensures exists i | |start.calls| <= i < |after.calls| :: after.calls[i].key == key
    {
      if key in before.ledger {
        var i :| |start.calls| <= i < |before.calls| && before.calls[i].key == key;
        assert after.calls[i].key == key;
      } else {
        assert after.calls[|before.calls|].key == key;
      }
    }
  }

  /** Once two calls share a key, or a call has lost its row, no later row mends it. */
  lemma {:induction false} BrokenForGood(before: Effects, after: Effects)
    requires CallsBehindRows(before, after) && !AtMostOnce(before)
    ensures !AtMostOnce(after)
  {
    if i, j :| 0 <= i < j < |before.calls| && before.calls[i].key == before.calls[j].key {
      assert after.calls[i].key == after.calls[j].key;
    } else {
      var i :| 0 <= i < |before.calls| && before.calls[i].key !in before.ledger;
      var key := before.calls[i].key;
      assert after.calls[i].key == key;
      if key in after.ledger {
        var j :| |before.calls| <= j < |after.calls| && after.calls[j].key == key;
      }
    }
  }

  lemma {:induction false} SentBehindRows(s: System, m: Sent)
    ensures CallsBehindRows(s.effects, Send(s, m).effects)
  {
    if m.request.planId in s.rows {
      if m.killed.None? {
        AnsweredBehindRows(s, m.request);
      } else {
        KilledBehindRows(s, m.request, m.killed.value);
      }
    }
  }

  lemma {:induction false} ExecuteBehindRows(rows: PlanRows, effects: Effects, r: Request)
    ensures CallsBehindRows(effects, E.Execute(rows, effects, r.runId, r.planId, r.world).1)
  {
    if r.planId in rows && E.QueuedActions(rows[r.planId].json).Ok? {
      var c := E.ContextOf(rows[r.planId], r.world, effects);
      WalkCallsBehindRows(c, E.QueuedActions(rows[r.planId].json).value, effects);
    }
  }

  lemma {:induction false} AnsweredBehindRows(s: System, r: Request)
    requires r.planId in s.rows
    ensures CallsBehindRows(s.effects, ConfirmRun(s, r).system.effects)
  {
    ReportBehindRows(s, C.Confirm(s.rows, r.runId, r.planId, r.actor, "web-demo-api").0, r);
  }

  lemma {:induction false} ReportBehindRows(s: System, confirmed: PlanRows, r: Request)
    ensures CallsBehindRows(s.effects, ExecuteAndReport(s, confirmed, r).system.effects)
  {
    ExecuteBehindRows(confirmed, s.effects, r);
    RollbackBehindRows(s, E.Execute(confirmed, s.effects, r.runId, r.planId, r.world).1);
  }

  lemma {:induction false} RollbackBehindRows(s: System, after: Effects)
    requires CallsBehindRows(s.effects, after)
    ensures CallsBehindRows(s.effects, RolledBack(s, after.calls).system.effects)
  {
  }

  lemma {:induction false} KilledBehindRows(s: System, r: Request, crash: W.Crash)
    requires r.planId in s.rows
    ensures CallsBehindRows(s.effects, Killed(s, r, crash).effects)
  {
    if Reaches(s, r) {
      var saga := SagaOf(Step(s, Confirming(r)), r.planId, r.world.answer);
      var n := W.StopsBefore(saga, W.Attempt(r.world, crash));
      WalkCallsBehindRows(W.ContextFrom(saga, r.world, s.effects), saga.actions[..n], s.effects);
    }
  }

  lemma {:induction false} SoundWhileKept(s: System, ms: seq<Sent>)
    requires Sound(s) && AtMostOnce(SendAll(s, ms).effects)
    ensures Sound(SendAll(s, ms))
  {
    if ms != [] {
      var last := |ms| - 1;
      var before := SendAll(s, ms[..last]);
      if !AtMostOnce(before.effects) {
        SentBehindRows(before, ms[last]);
        BrokenForGood(before.effects, SendAll(s, ms).effects);
      }
      SoundWhileKept(s, ms[..last]);
      SentKeepsSound(before, ms[last]);
    }
  }

  ghost predicate AllKeep(s: System, ms: seq<Sent>) {
    forall k | 0 <= k < |ms| :: KeepsPromise(SendAll(s, ms[..k]), ms[k])
  }

  lemma {:induction false} AllKeepGrows(s: System, ms: seq<Sent>)
    requires ms != []
    ensures var last := |ms| - 1;
            AllKeep(s, ms) <==> AllKeep(s, ms[..last]) && KeepsPromise(SendAll(s, ms[..last]), ms[last])
  {
    var last := |ms| - 1;
    assert forall k | 0 <= k < last :: ms[..last][..k] == ms[..k] && ms[..last][k] == ms[k];
  }

  /**
   * Over any requests, one after the other, answered or killed: no provider was called twice for a key, or called
   * without its row, exactly when each request kept the promise in the state it met. Once broken, it stays broken.
   */
  lemma {:induction false} AtMostOnceOverRequests(s: System, ms: seq<Sent>)
    requires Sound(s)
    ensures AtMostOnce(SendAll(s, ms).effects) <==> AllKeep(s, ms)
  {
    if ms != [] {
      var last := |ms| - 1;
      var before := SendAll(s, ms[..last]);
      AtMostOnceOverRequests(s, ms[..last]);
      AllKeepGrows(s, ms);
      if AtMostOnce(before.effects) {
        SoundWhileKept(s, ms[..last]);
        OneSentExactly(before, ms[last]);
      } else {
        SentBehindRows(before, ms[last]);
        BrokenForGood(before.effects, SendAll(s, ms).effects);
      }
    }
  }
}
