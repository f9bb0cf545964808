/** The shape every attempt gives its results, and what the stored summary says about it. */
module ExecutionResults {
  import opened Wrappers
  import opened JsonTrees
  import opened Gateway
  import opened Plans
  import opened Execution
  import opened Sorting

  /** Successes, then at most one failure, then only skipped actions. */
  ghost predicate StopsAtFirstFailure(results: seq<ActionResult>) {
    var f := FirstFailure(results);
    && (forall i | 0 <= i < f :: IsSuccess(results[i].status))
    && (f < |results| ==> IsFailure(results[f].status))
    && (forall i | f < i < |results| :: results[i].status.Skipped?)
  }

  ghost predicate Describes(r: ActionResult, a: Action) {
    r.ref == a.ref && r.order == a.order && r.tool == a.tool && r.target == a.target && r.key == a.key
  }

  lemma {:induction false} FirstFailureIsFirst(results: seq<ActionResult>)
    ensures var f := FirstFailure(results);
            && (forall i | 0 <= i < f :: !IsFailure(results[i].status))
            && (f < |results| ==> IsFailure(results[f].status))
  {
    if results != [] {
      FirstFailureIsFirst(results[..|results| - 1]);
    }
  }

  /** What one iteration adds. */
  lemma {:induction false} AdvanceAddsOne(c: Context, w: Walk, a: Action) returns (r: ActionResult)
    requires !Advance(c, w, a).raised
    ensures !w.raised && Advance(c, w, a).results == w.results + [r] && Describes(r, a)
    ensures w.priorFailure ==> r.status.Skipped? && Advance(c, w, a).priorFailure
    ensures !w.priorFailure ==> IsSuccess(r.status) || IsFailure(r.status)
    ensures !w.priorFailure ==> (Advance(c, w, a).priorFailure <==> IsFailure(r.status))
    ensures Flagged(r, c, a, !w.priorFailure)
  {
    var after := Advance(c, w, a);
    r := after.results[|w.results|];
  }

  lemma {:induction false} FirstFailureGrows(results: seq<ActionResult>, r: ActionResult)
    ensures var f := FirstFailure(results);
            FirstFailure(results + [r]) == if f < |results| then f else if IsFailure(r.status) then |results|
              else |results| + 1
  {
    assert (results + [r])[..|results|] == results;
  }

  lemma {:induction false} ShapeGrows(results: seq<ActionResult>, r: ActionResult)
    requires StopsAtFirstFailure(results)
    requires if FirstFailure(results) < |results| then r.status.Skipped? else IsSuccess(r.status) || IsFailure(r.status)
    ensures StopsAtFirstFailure(results + [r])
    ensures FirstFailure(results + [r]) ==
            if FirstFailure(results) == |results| && IsSuccess(r.status) then |results| + 1 else FirstFailure(results)
  {
    var grown := results + [r];
    var f := FirstFailure(results);
    FirstFailureGrows(results, r);
    forall i | FirstFailure(grown) < i < |grown| ensures grown[i].status.Skipped? {
      if i < |results| {
        assert grown[i] == results[i];
      }
    }
    forall i | 0 <= i < FirstFailure(grown) ensures IsSuccess(grown[i].status) {
      if i < |results| {
        assert grown[i] == results[i];
      }
    }
  }

  ghost predicate Aligned(c: Context, actions: seq<Action>, results: seq<ActionResult>) {
    && |results| == |actions|
    && (forall i | 0 <= i < |actions| :: Describes(results[i], actions[i]))
    && (forall i | 0 <= i < |actions| :: Flagged(results[i], c, actions[i], i <= FirstFailure(results)))
  }

  /**
   * An attempt that is not broken off gives one result per action, in order and describing that action: successes,
   * then optionally one failure, then only skips. Exactly the skipped ones carry the skipped flag, and exactly the
   * attempted ones whose key was in the ledger at the start carry the replayed flag, with the row's outcome; the others
   * carry what the gateway answered.
   */
  lemma {:induction false} WalkShape(c: Context, actions: seq<Action>, start: Effects)
    requires !WalkActions(c, actions, start).raised
    ensures Aligned(c, actions, WalkActions(c, actions, start).results)
    ensures StopsAtFirstFailure(WalkActions(c, actions, start).results)
    ensures WalkActions(c, actions, start).priorFailure <==>
            FirstFailure(WalkActions(c, actions, start).results) < |actions|
  {
    if actions != [] {
      var last := |actions| - 1;
      var before := WalkActions(c, actions[..last], start);
      assert WalkActions(c, actions, start) == Advance(c, before, actions[last]);
      WalkShape(c, actions[..last], start);
      StepAligned(c, actions, before);
    }
  }

  lemma {:induction false} StepAligned(c: Context, actions: seq<Action>, before: Walk)
    requires actions != [] && !Advance(c, before, actions[|actions| - 1]).raised
    requires Aligned(c, actions[..|actions| - 1], before.results)
    requires StopsAtFirstFailure(before.results)
    requires before.priorFailure <==> FirstFailure(before.results) < |before.results|
    ensures var after := Advance(c, before, actions[|actions| - 1]);
            && Aligned(c, actions, after.results)
            && StopsAtFirstFailure(after.results)
            && (after.priorFailure <==> FirstFailure(after.results) < |actions|)
  {
    var r := AdvanceAddsOne(c, before, actions[|actions| - 1]);
    ShapeGrows(before.results, r);
    WalkGrows(c, actions, before.results, r);
  }

  lemma {:induction false} WalkGrows(c: Context, actions: seq<Action>, results: seq<ActionResult>, r: ActionResult)
    requires |actions| == |results| + 1 && Aligned(c, actions[..|results|], results)
    requires Describes(r, actions[|results|]) && Flagged(r, c, actions[|results|], FirstFailure(results) == |results|)
    requires FirstFailure(results + [r]) == FirstFailure(results) ||
             (FirstFailure(results) == |results| && FirstFailure(results + [r]) == |results| + 1)
    ensures Aligned(c, actions, results + [r])
  {
    var n := |results|;
    assert Describes((results + [r])[n], actions[n])
      && Flagged((results + [r])[n], c, actions[n], n <= FirstFailure(results + [r]));
    forall i | 0 <= i < n
      ensures Describes((results + [r])[i], actions[i])
      ensures Flagged((results + [r])[i], c, actions[i], i <= FirstFailure(results + [r]))
    {
      assert Describes(results[i], actions[..n][i])
        && Flagged(results[i], c, actions[..n][i], i <= FirstFailure(results));
    }
  }

  ghost predicate Flagged(r: ActionResult, c: Context, a: Action, attempted: bool) {
    && (r.skippedDueToPriorFailure <==> !attempted)
    && (r.replayedFromLedger <==> attempted && a.key in c.snapshot)
    && (r.replayedFromLedger ==> Replays(r, c, a))
    && (attempted && !r.replayedFromLedger ==> Answers(r, c, a))
    && (!attempted ==> r.status.Skipped? && r.response.None? && r.fault.None?)
  }

  /**
   * The result of an action that was put to the gateway: what the provider answered to a confirmed request with the
   * action's tool, target, payload and key, or why it was not called.
   */
  ghost predicate Answers(r: ActionResult, c: Context, a: Action) {
    var answer := c.world.answer(WriteRequest(c.runId, a.tool, a.payload, c.provider, true, a.target, a.key));
    match r.status
    case Succeeded => answer.Accepted? && r.response == Some(answer.response) && r.fault.None?
    case IdempotentReplay => c.provider in c.world.providers
    case Failed =>
      && r.response.None?
      && (match r.fault
          case Some(ProviderError(detail)) => answer == Raised(detail) && c.provider in c.world.providers
          case Some(UnknownProvider) => c.provider !in c.world.providers
          case Some(MissingWriteFields) => a.target == "" || a.key == ""
          case _ => false)
    case RateLimited => r.response.None? && r.fault == Some(RateLimitExceeded)
    case _ => false
  }

  ghost predicate Replays(r: ActionResult, c: Context, a: Action) {
    && r.replayedFromLedger
    && a.key in c.snapshot
    && r.status == c.snapshot[a.key].status
    && r.response == c.snapshot[a.key].response
    && r.fault == c.snapshot[a.key].fault
  }

  // ---- what is read and what is refused ---------------------------------------------------------------

  ghost predicate HasOrder(fields: seq<Field>, order: int) {
    && order > 0
    && (Lookup(fields, "execution_order") == Some(Int(order))
        || (order == 1 && Lookup(fields, "execution_order") == Some(Bool(true))))
  }

  ghost predicate IsWriteTool(tool: string) {
    tool in {"join_queue", "reserve_restaurant", "book_ticket", "order_addon", "send_message"}
  }

  /** The document is that action: each part stands under its own name, and the user confirmed it. */
  ghost predicate Holds(item: Json, a: Action) {
    && item.Obj?
    && HasText(item.fields, "action_ref", a.ref) && HasOrder(item.fields, a.order)
    && HasText(item.fields, "tool_name", a.tool) && IsWriteTool(a.tool)
    && HasText(item.fields, "target_id", a.target)
    && HasText(item.fields, "idempotency_key", a.key) && |a.key| <= 255
    && Lookup(item.fields, "user_confirmed") == Some(Bool(true))
    && HasPayload(item.fields, a.payload)
  }

  lemma {:induction false} ReadExactly(item: Json, a: Action)
    ensures ReadAction(item) == Ok(a) <==> Holds(item, a)
  {
    if item.Obj? {
      OrderExactly(item.fields, a.order);
      TextExactly(item.fields, "action_ref", a.ref);
      TextExactly(item.fields, "tool_name", a.tool);
      TextExactly(item.fields, "target_id", a.target);
      TextExactly(item.fields, "idempotency_key", a.key);
      OrderExactly(item.fields, OrderAt(item.fields));
    }
  }

  lemma {:induction false} OrderExactly(fields: seq<Field>, order: int)
    ensures HasOrder(fields, order) <==> order == OrderAt(fields) && order > 0
  {
  }

  ghost predicate NoOrder(fields: seq<Field>) {
    forall order :: !HasOrder(fields, order)
  }

  ghost predicate NoWriteTool(fields: seq<Field>) {
    forall tool | IsWriteTool(tool) :: !HasText(fields, "tool_name", tool)
  }

  ghost predicate LongKey(fields: seq<Field>) {
    exists text :: HasText(fields, "idempotency_key", text) && |text| > 255
  }

  /** What the checks of an action refuse, in their order. */
  ghost function FirstRefusal(item: Json): Option<ExecutionError> {
    if !item.Obj? then Some(ActionNotAnObject)
    else if NoText(item.fields, "action_ref") then Some(BadRef)
    else if NoOrder(item.fields) then Some(BadOrder)
    else if NoWriteTool(item.fields) then Some(NotAWriteTool)
    else if NoText(item.fields, "target_id") then Some(BadTarget)
    else if NoText(item.fields, "idempotency_key") then Some(BadKey)
    else if LongKey(item.fields) then Some(KeyTooLong)
    else if Lookup(item.fields, "user_confirmed") != Some(Bool(true)) then Some(NotUserConfirmed)
    else if NoPayload(item.fields) then Some(BadPayload)
    else None
  }

  /** An action is refused exactly for the first of the checks that it fails. */
  lemma {:induction false} RefusedExactly(item: Json)
    ensures FirstRefusal(item) == match ReadAction(item) case Err(e) => Some(e) case Ok(_) => None
  {
    if item.Obj? {
      var f := item.fields;
      NoTextExactly(f, "action_ref");
      NoTextExactly(f, "target_id");
      NoTextExactly(f, "idempotency_key");
      NoOrderExactly(f);
      NoWriteToolExactly(f);
      LongKeyExactly(f);
      NoPayloadExactly(f);
    }
  }

  lemma {:induction false} NoOrderExactly(fields: seq<Field>)
    ensures NoOrder(fields) <==> OrderAt(fields) <= 0
  {
    OrderExactly(fields, OrderAt(fields));
  }

  lemma {:induction false} NoWriteToolExactly(fields: seq<Field>)
    ensures NoWriteTool(fields) <==> TextAt(fields, "tool_name") !in WRITE_TOOLS
  {
    TextExactly(fields, "tool_name", TextAt(fields, "tool_name"));
  }

  lemma {:induction false} LongKeyExactly(fields: seq<Field>)
    ensures LongKey(fields) <==> |TextAt(fields, "idempotency_key")| > 255
  {
    TextExactly(fields, "idempotency_key", TextAt(fields, "idempotency_key"));
  }

  ghost predicate Differ(a: Action, b: Action) {
    a.ref != b.ref && a.order != b.order
  }

  ghost predicate AllHeld(items: seq<Json>, actions: seq<Action>) {
    && |actions| == |items| && (forall i | 0 <= i < |items| :: Holds(items[i], actions[i]))
    && (forall i, j | 0 <= i < j < |actions| :: Differ(actions[i], actions[j]))
  }

  lemma {:induction false} UnseenExactly(before: seq<Action>, a: Action)
    ensures a.ref !in RefsOf(before) <==> forall i | 0 <= i < |before| :: before[i].ref != a.ref
    ensures a.order !in OrdersOf(before) <==> forall i | 0 <= i < |before| :: before[i].order != a.order
  {
    assert forall b :: b in before <==> exists i | 0 <= i < |before| :: before[i] == b;
    assert forall i | 0 <= i < |before| :: before[i] in before;
  }

  /** A list is read exactly as the actions that its documents are, and only when no two share a ref or an order. */
  lemma {:induction false} ListReadExactly(items: seq<Json>, actions: seq<Action>)
    ensures ReadActions(items) == Ok(actions) <==> AllHeld(items, actions)
  {
    if items != [] {
      var last := |items| - 1;
      if |actions| == |items| {
        ListReadExactly(items[..last], actions[..last]);
        OneMoreHeld(items, actions);
        AddedExactly(items, actions);
      }
      ReadLength(items);
    }
  }

  lemma {:induction false} AddedExactly(items: seq<Json>, actions: seq<Action>)
    requires items != [] && |actions| == |items|
    ensures var last := |items| - 1;
            ReadActions(items) == Ok(actions) <==>
            && ReadActions(items[..last]) == Ok(actions[..last]) && Holds(items[last], actions[last])
            && forall i | 0 <= i < last :: Differ(actions[..last][i], actions[last])
  {
    var last := |items| - 1;
    assert actions == actions[..last] + [actions[last]];
    ReadExactly(items[last], actions[last]);
    UnseenExactly(actions[..last], actions[last]);
    if ReadActions(items) == Ok(actions) {
      var before, read := ReadActions(items[..last]).value, ReadAction(items[last]).value;
      assert before + [read] == actions;
      assert before == (before + [read])[..last] && read == (before + [read])[last];
    }
  }

  lemma {:induction false} ReadLength(items: seq<Json>)
    ensures ReadActions(items).Ok? ==> |ReadActions(items).value| == |items|
  {
    if items != [] {
      ReadLength(items[..|items| - 1]);
    }
  }

  lemma {:induction false} OneMoreHeld(items: seq<Json>, actions: seq<Action>)
    requires items != [] && |actions| == |items|
    ensures var last := |items| - 1;
            AllHeld(items, actions) <==>
            && AllHeld(items[..last], actions[..last]) && Holds(items[last], actions[last])
            && forall i | 0 <= i < last :: Differ(actions[..last][i], actions[last])
  {
    var last := |items| - 1;
    if AllHeld(items[..last], actions[..last]) && Holds(items[last], actions[last])
       && forall i | 0 <= i < last :: Differ(actions[..last][i], actions[last])
    {
      forall i | 0 <= i < |items| ensures Holds(items[i], actions[i]) {
        assert i < last ==> Holds(items[..last][i], actions[..last][i]);
      }
      forall i, j | 0 <= i < j < |actions| ensures Differ(actions[i], actions[j]) {
        assert j < last ==> Differ(actions[..last][i], actions[..last][j]);
        assert Differ(actions[..last][i], actions[last]);
      }
    }
    if AllHeld(items, actions) {
      assert forall i | 0 <= i < last :: Holds(items[i], actions[i]) && Differ(actions[i], actions[last]);
    }
  }

  /** The queue is the list of a document's actions by their order; without a list there is none. */
  lemma {:induction false} QueuedExactly(json: PlanJson)
    ensures var queued := QueuedActions(json);
            && (queued == Err(NoConfirmedActions) <==> json.confirmedActions == Null)
            && (queued == Err(ActionsNotAList) <==> json.confirmedActions != Null && !json.confirmedActions.Arr?)
            && (json.confirmedActions.Arr? ==>
                (queued.Ok? <==> exists actions :: AllHeld(json.confirmedActions.items, actions)))
  {
    if json.confirmedActions.Arr? {
      var items := json.confirmedActions.items;
      if ReadActions(items).Ok? {
        ListReadExactly(items, ReadActions(items).value);
      } else {
        ListErrorIsOfItems(items);
      }
      forall actions ensures AllHeld(items, actions) ==> ReadActions(items).Ok? {
        ListReadExactly(items, actions);
      }
    }
  }

  ghost predicate SharesRef(before: seq<Action>, a: Action) {
    exists i | 0 <= i < |before| :: before[i].ref == a.ref
  }

  ghost predicate SharesOrder(before: seq<Action>, a: Action) {
    exists i | 0 <= i < |before| :: before[i].order == a.order
  }

  ghost predicate Clashes(before: seq<Action>, item: Json, a: Action, e: ExecutionError) {
    Holds(item, a) && if SharesRef(before, a) then e == DuplicateRef else SharesOrder(before, a) && e == DuplicateOrder
  }

  /** The document is refused itself, or it is an action with the ref, or else the order, of one before it. */
  ghost predicate FailsBehind(before: seq<Action>, item: Json, e: ExecutionError) {
    FirstRefusal(item) == Some(e) || exists a :: Clashes(before, item, a, e)
  }

  ghost predicate FailsAt(items: seq<Json>, i: nat, e: ExecutionError)
    requires i < |items|
  {
    exists before :: AllHeld(items[..i], before) && FailsBehind(before, items[i], e)
  }

  lemma {:induction false} FailsInPrefix(items: seq<Json>, i: nat, e: ExecutionError)
    requires i < |items| - 1 && FailsAt(items[..|items| - 1], i, e)
    ensures FailsAt(items, i, e)
  {
    var prefix := items[..|items| - 1];
    assert prefix[..i] == items[..i];
    var before :| AllHeld(prefix[..i], before) && FailsBehind(before, prefix[i], e);
    assert AllHeld(items[..i], before) && FailsBehind(before, items[i], e);
  }

  /** A list is refused at the first document that fails. */
  lemma {:induction false} ListErrors(items: seq<Json>)
    requires ReadActions(items).Err?
    ensures exists i | 0 <= i < |items| :: FailsAt(items, i, ReadActions(items).error)
  {
    var prefix := items[..|items| - 1];
    if ReadActions(prefix).Err? {
      ListErrors(prefix);
      var i :| 0 <= i < |prefix| && FailsAt(prefix, i, ReadActions(items).error);
      FailsInPrefix(items, i, ReadActions(items).error);
    } else {
      FailsAtLast(items);
    }
  }

  lemma {:induction false} ListErrorIsOfItems(items: seq<Json>)
    requires ReadActions(items).Err?
    ensures !ReadActions(items).error.NoConfirmedActions? && !ReadActions(items).error.ActionsNotAList?
  {
    var last := |items| - 1;
    if ReadActions(items[..last]).Err? {
      ListErrorIsOfItems(items[..last]);
    }
  }

  lemma {:induction false} FailsAtLast(items: seq<Json>)
    requires items != [] && ReadActions(items[..|items| - 1]).Ok? && ReadActions(items).Err?
    ensures FailsAt(items, |items| - 1, ReadActions(items).error)
  {
    var last := |items| - 1;
    var before := ReadActions(items[..last]).value;
    ListReadExactly(items[..last], before);
    var read := ReadAction(items[last]);
    RefusedExactly(items[last]);
    forall a ensures read == Ok(a) <==> Holds(items[last], a) {
      ReadExactly(items[last], a);
    }
    if read.Ok? {
      UnseenExactly(before, read.value);
      assert Clashes(before, items[last], read.value, AddRead(before, read).error);
    }
  }

  ghost predicate IsOwn(rows: PlanRows, runId: Id, planId: Id) {
    planId in rows && rows[planId].runId == runId && rows[planId].selected
  }

  /** The run's selected plan, confirmed or executed already. */
  ghost predicate IsBegun(rows: PlanRows, runId: Id, planId: Id) {
    && IsOwn(rows, runId, planId)
    && rows[planId].status in {Confirmed, Executed, PartiallyExecuted, ExecutionFailed, ExecutionSkipped}
  }

  ghost predicate IsConfirmedIn(json: PlanJson) {
    json.isReviewedPlan && json.confirmation.Some? && json.confirmation.value.status == "confirmed"
  }

  ghost predicate NamesProvider(json: PlanJson) {
    json.provider.Str? && json.provider.s != ""
  }

  /** Why a plan is not executed. */
  ghost predicate Unstartable(rows: PlanRows, runId: Id, planId: Id, e: ExecutionError) {
    match e
    case PlanMissing => planId !in rows
    case WrongRun => planId in rows && rows[planId].runId != runId
    case NotSelected => planId in rows && rows[planId].runId == runId && !rows[planId].selected
    case PlanDeclined => IsOwn(rows, runId, planId) && rows[planId].status == Declined
    case NotConfirmed =>
      || (IsOwn(rows, runId, planId) && (rows[planId].status == Reviewed || rows[planId].status == Selected))
      || (&& IsBegun(rows, runId, planId) && rows[planId].json.isReviewedPlan && rows[planId].json.confirmation.Some?
          && rows[planId].json.confirmation.value.status != "confirmed")
    case NotReviewedPlan => IsBegun(rows, runId, planId) && !rows[planId].json.isReviewedPlan
    case NoConfirmation =>
      IsBegun(rows, runId, planId) && rows[planId].json.isReviewedPlan && rows[planId].json.confirmation.None?
    case ProviderMissing =>
      IsBegun(rows, runId, planId) && IsConfirmedIn(rows[planId].json) && !NamesProvider(rows[planId].json)
    case _ => false
  }

  lemma {:induction false} UnstartableExactly(rows: PlanRows, runId: Id, planId: Id)
    ensures forall e :: LoadProblem(rows, runId, planId) == Some(e) <==> Unstartable(rows, runId, planId, e)
    ensures LoadProblem(rows, runId, planId).None? <==>
            IsBegun(rows, runId, planId) && IsConfirmedIn(rows[planId].json) && NamesProvider(rows[planId].json)
  {
  }

  /** What an attempt works with: the provider of the plan, and the rows that its run has in the ledger at the start. */
  ghost predicate WorksWith(c: Context, plan: Plan, world: World, ledger: Ledger) {
    && c.runId == plan.runId && c.world == world
    && (plan.json.provider.Str? ==> c.provider == plan.json.provider.s)
    && (forall key :: key in c.snapshot <==> key in ledger && ledger[key].runId == plan.runId)
    && (forall key | key in c.snapshot :: c.snapshot[key] == ledger[key])
  }

  /** A request that cannot be executed changes nothing. */
  lemma {:induction false} RefusalChangesNothing(rows: PlanRows, effects: Effects, runId: Id, planId: Id, world: World,
      e: ExecutionError)
    requires Unstartable(rows, runId, planId, e)
    ensures Execute(rows, effects, runId, planId, world) == (rows, effects, Err(e))
  {
    UnstartableExactly(rows, runId, planId);
  }

  ghost predicate IsStartable(rows: PlanRows, runId: Id, planId: Id) {
    IsBegun(rows, runId, planId) && IsConfirmedIn(rows[planId].json) && NamesProvider(rows[planId].json)
  }

  /** Nothing was executed, and nothing failed. */
  ghost predicate SaysSkipped(s: ExecutionResult) {
    && s.status == WorkflowSkipped && s.planStatus == ExecutionSkipped && s.actionResults == []
    && s.succeededCount == 0 && s.failedCount == 0 && s.rollbackStatus == NotNeeded && s.rollbackRefs == []
  }

  /** The plan keeps its document but for the execution, and every other plan stays. */
  ghost predicate StoresExecution(rows: PlanRows, after: PlanRows, planId: Id, s: ExecutionResult)
    requires planId in rows
  {
    && after.Keys == rows.Keys && (forall id | id in rows && id != planId :: after[id] == rows[id])
    && after[planId].runId == rows[planId].runId && after[planId].selected == rows[planId].selected
    && after[planId].status == s.planStatus
    && after[planId].json == rows[planId].json.(execution := after[planId].json.execution)
    && after[planId].json.execution == Some(s)
  }

  /**
   * The call for a plan that can be executed: a finished one gives what it stored; a queue that cannot be read raises;
   * an empty one is skipped; any other is worked off from the ledger of the moment.
   */
  lemma {:induction false} ExecutedExactly(rows: PlanRows, effects: Effects, runId: Id, planId: Id, world: World)
    requires IsStartable(rows, runId, planId)
    ensures var (after, left, result) := Execute(rows, effects, runId, planId, world);
            var plan := rows[planId];
            var queued := QueuedActions(plan.json);
            if !plan.status.Confirmed? then
              && after == rows && left == effects
              && result == (match plan.json.execution case Some(s) => Ok(s) case None => Err(NoTerminalResult))
            else if queued.Err? then after == rows && left == effects && result == Err(queued.error)
            else if queued.value == [] then
              && left == effects && result.Ok? && SaysSkipped(result.value)
              && StoresExecution(rows, after, planId, result.value)
            else
              exists c | WorksWith(c, plan, world, effects.ledger) ::
                var walk := WalkActions(c, queued.value, effects);
                && left == walk.effects
                && (walk.raised ==> after == rows && result == Err(UnsupportedLedgerStatus))
                && (!walk.raised ==>
                      && result.Ok? && result.value.actionResults == walk.results
                      && StoresExecution(rows, after, planId, result.value))
  {
    UnstartableExactly(rows, runId, planId);
    assert WorksWith(ContextOf(rows[planId], world, effects), rows[planId], world, effects.ledger);
  }

  // ---- the summary -------------------------------------------------------------------------------

  lemma {:induction false} CountsOfShape(results: seq<ActionResult>)
    requires StopsAtFirstFailure(results)
    ensures SucceededCount(results) == FirstFailure(results)
    ensures FailedCount(results) == if FirstFailure(results) < |results| then 1 else 0
  {
    if results != [] {
      var last := |results| - 1;
      ShapeOfPrefix(results);
      CountsOfShape(results[..last]);
      FirstFailureIsFirst(results[..last]);
    }
  }

  lemma {:induction false} ShapeOfPrefix(results: seq<ActionResult>)
    requires results != [] && StopsAtFirstFailure(results)
    ensures StopsAtFirstFailure(results[..|results| - 1])
  {
    FirstFailureIsFirst(results);
    FirstFailureIsFirst(results[..|results| - 1]);
  }

  lemma {:induction false} SuccessRefsOfSuccesses(results: seq<ActionResult>)
    requires forall r | r in results :: IsSuccess(r.status)
    ensures SuccessRefs(results) == RefsInOrder(results)
  {
    if results != [] {
      var last := |results| - 1;
      assert results == results[..last] + [results[last]];
      SuccessRefsOfSuccesses(results[..last]);
    }
  }

  function RefsInOrder(results: seq<ActionResult>): seq<string> {
    seq(|results|, i requires 0 <= i < |results| => results[i].ref)
  }

  /**
   * Of a non-empty attempt: at most one action failed; `succeeded` means every action did, `failed` means the first
   * one did not, `partially_succeeded` anything between; and the rollback candidates are exactly the refs of the
   * succeeded actions, in order, when the status is partial, and nobody otherwise.
   */
  lemma {:induction false} SummaryShape(results: seq<ActionResult>)
    requires results != [] && StopsAtFirstFailure(results)
    ensures var s := Summarize(results);
            var n := |results|;
            && s.actionResults == results && s.failedCount <= 1 && s.succeededCount + s.failedCount <= n
            && (s.status.WorkflowSucceeded? <==> s.succeededCount == n)
            && (s.status.WorkflowFailed? <==> IsFailure(results[0].status))
            && (s.status.PartiallySucceeded? <==> 0 < s.succeededCount < n)
            && s.planStatus == (match s.status
                                case WorkflowSucceeded => Executed
                                case PartiallySucceeded => PartiallyExecuted
                                case WorkflowFailed => ExecutionFailed
                                case WorkflowSkipped => ExecutionSkipped)
            && s.rollbackRefs == (if s.status.PartiallySucceeded? then RefsInOrder(results[..s.succeededCount]) else [])
            && s.rollbackStatus == (match s.status
                                    case PartiallySucceeded => NotAttempted
                                    case WorkflowFailed => NotApplicable
                                    case _ => NotNeeded)
  {
    CountsOfShape(results);
    FirstFailureIsFirst(results);
    var f := FirstFailure(results);
    SuccessRefsOfSuccesses(results[..f]);
  }

  ghost predicate SomeSucceeded(results: seq<ActionResult>) {
    exists r | r in results :: r.status == Succeeded || r.status == IdempotentReplay
  }

  ghost predicate SomeFailed(results: seq<ActionResult>) {
    exists r | r in results :: r.status == Failed || r.status == Blocked || r.status == RateLimited
  }

  lemma {:induction false} CountedExactly(results: seq<ActionResult>)
    ensures SucceededCount(results) > 0 <==> SomeSucceeded(results)
    ensures FailedCount(results) > 0 <==> SomeFailed(results)
  {
    if results != [] {
      var last := |results| - 1;
      CountedExactly(results[..last]);
      assert forall r :: r in results <==> r in results[..last] || r == results[last];
    }
  }

  /** The status of any list of results: success without failure, both, or else failure. */
  lemma {:induction false} StatusExactly(results: seq<ActionResult>)
    ensures var status := Summarize(results).status;
            && (status.WorkflowSucceeded? <==> SomeSucceeded(results) && !SomeFailed(results))
            && (status.PartiallySucceeded? <==> SomeSucceeded(results) && SomeFailed(results))
            && (status.WorkflowFailed? <==> !SomeSucceeded(results))
  {
    CountedExactly(results);
  }

  /** What the executor stores as the result of a finished attempt. */
  ghost predicate FromWorkflow(s: ExecutionResult) {
    s == SKIPPED_RESULT ||
    (&& s == Summarize(s.actionResults)
     && s.actionResults != []
     && StopsAtFirstFailure(s.actionResults)
     && (forall r | r in s.actionResults :: r.order > 0 && r.ref != "" && r.tool != "" && r.target != "")
     && (forall i, j | 0 <= i < j < |s.actionResults| :: s.actionResults[i].order < s.actionResults[j].order))
  }

  /** The executor's own actions are valid and strictly ordered. */
  lemma {:induction false} ReadActionsAreValid(items: seq<Json>)
    requires ReadActions(items).Ok?
    ensures var actions := ReadActions(items).value;
            && |actions| == |items|
            && (forall a | a in actions ::
                a.order > 0 && a.ref != "" && a.tool in WRITE_TOOLS && a.target != "" && a.key != "")
            && (forall i, j | 0 <= i < j < |actions| :: actions[i].order != actions[j].order)
  {
    if items != [] {
      var last := |items| - 1;
      ReadActionsAreValid(items[..last]);
      var before := ReadActions(items[..last]).value;
      assert forall i | 0 <= i < last :: before[i] in before;
    }
  }

  lemma {:induction false} QueueIsValid(json: PlanJson)
    requires QueuedActions(json).Ok?
    ensures var actions := QueuedActions(json).value;
            && (forall a | a in actions ::
                a.order > 0 && a.ref != "" && a.tool in WRITE_TOOLS && a.target != "" && a.key != "")
            && (forall i, j | 0 <= i < j < |actions| :: actions[i].order < actions[j].order)
            && json.confirmedActions.Arr?
               && multiset(actions) == multiset(ReadActions(json.confirmedActions.items).value)
  {
    var read := ReadActions(json.confirmedActions.items).value;
    ReadActionsAreValid(json.confirmedActions.items);
    SortBySorts(read, OrderOf);
    SortByStrict(read, OrderOf);
    var actions := QueuedActions(json).value;
    assert forall i, j | 0 <= i < j < |actions| :: OrderOf(actions[i]) < OrderOf(actions[j]);
  }

  /** A finished execution of a plan that was not terminal stores, and returns, a workflow result. */
  lemma {:induction false} ExecuteStoresWorkflowResult(
      rows: PlanRows, effects: Effects, runId: Id, planId: Id, world: World)
    requires planId in rows && !IsTerminal(rows[planId].status)
    requires Execute(rows, effects, runId, planId, world).2.Ok?
    ensures var (after, _, result) := Execute(rows, effects, runId, planId, world);
            && FromWorkflow(result.value)
            && after == Persisted(rows, planId, result.value)
            && IsTerminal(result.value.planStatus)
  {
    var plan := rows[planId];
    if QueuedActions(plan.json).value != [] {
      var c := ContextOf(plan, world, effects);
      WalkResultsFromWorkflow(c, plan.json, effects);
      SummaryIsTerminal(WalkActions(c, QueuedActions(plan.json).value, effects).results);
    }
  }

  lemma {:induction false} SummaryIsTerminal(results: seq<ActionResult>)
    ensures IsTerminal(Summarize(results).planStatus)
  {
  }

  lemma {:induction false} WalkResultsFromWorkflow(c: Context, json: PlanJson, effects: Effects)
    requires QueuedActions(json).Ok? && QueuedActions(json).value != []
    requires !WalkActions(c, QueuedActions(json).value, effects).raised
    ensures FromWorkflow(Summarize(WalkActions(c, QueuedActions(json).value, effects).results))
  {
    var actions := QueuedActions(json).value;
    QueueIsValid(json);
    WalkShape(c, actions, effects);
    ResultsAreValid(c, actions, WalkActions(c, actions, effects).results);
  }

  lemma {:induction false} ResultsAreValid(c: Context, actions: seq<Action>, results: seq<ActionResult>)
    requires Aligned(c, actions, results)
    requires forall a | a in actions :: a.order > 0 && a.ref != "" && a.tool in WRITE_TOOLS && a.target != ""
    requires forall i, j | 0 <= i < j < |actions| :: actions[i].order < actions[j].order
    ensures forall r | r in results :: r.order > 0 && r.ref != "" && r.tool != "" && r.target != ""
    ensures forall i, j | 0 <= i < j < |results| :: results[i].order < results[j].order
  {
    forall i | 0 <= i < |results|
      ensures results[i].order == actions[i].order
      ensures results[i].order > 0 && results[i].ref != "" && results[i].tool != "" && results[i].target != ""
    {
      assert Describes(results[i], actions[i]) && actions[i] in actions;
    }
  }
}
