/** What confirmation stores is what the executor reads: the contract between the two services. */
module ConfirmExecute {
  import opened Wrappers
  import opened JsonTrees
  import opened Plans
  import opened Sorting
  import C = Confirmations
  import E = Execution

  function ActionsOf(confirmed: seq<C.ConfirmedAction>): seq<Action> {
    seq(|confirmed|, i requires 0 <= i < |confirmed| => confirmed[i].action)
  }

  const DUMP_NAMES := [
    "action_ref", "execution_order", "tool_name", "target_id", "payload", "idempotency_key", "user_confirmed", "reason"]

  lemma {:induction false} DumpNamesDiffer()
    ensures forall i, j | 0 <= i < j < |DUMP_NAMES| :: DUMP_NAMES[i] != DUMP_NAMES[j]
  {
    assert |DUMP_NAMES[0]| == 10 && |DUMP_NAMES[1]| == 15 && |DUMP_NAMES[2]| == 9 && |DUMP_NAMES[3]| == 9;
    assert |DUMP_NAMES[4]| == 7 && |DUMP_NAMES[5]| == 15 && |DUMP_NAMES[6]| == 14 && |DUMP_NAMES[7]| == 6;
    assert DUMP_NAMES[1][0] == 'e' && DUMP_NAMES[5][0] == 'i';
    assert DUMP_NAMES[2][1] == 'o' && DUMP_NAMES[3][1] == 'a';
  }

  lemma {:induction false} DumpFields(c: C.ConfirmedAction)
    ensures var f := C.Dump(c).fields;
            && Lookup(f, "action_ref") == Some(Str(c.action.ref))
            && Lookup(f, "execution_order") == Some(Int(c.action.order))
            && Lookup(f, "tool_name") == Some(Str(c.action.tool))
            && Lookup(f, "target_id") == Some(Str(c.action.target))
            && Lookup(f, "payload") == Some(c.action.payload)
            && Lookup(f, "idempotency_key") == Some(Str(c.action.key))
            && Lookup(f, "user_confirmed") == Some(Bool(true))
            && Lookup(f, "reason") == Some(Str(c.reason))
            && Named(f, ["action_ref", "execution_order", "tool_name", "target_id", "payload", "idempotency_key",
                         "user_confirmed", "reason"])
  {
    var f := C.Dump(c).fields;
    DumpNamesDiffer();
    LookupNamed(f, DUMP_NAMES, 0);
    LookupNamed(f, DUMP_NAMES, 1);
    LookupNamed(f, DUMP_NAMES, 2);
    LookupNamed(f, DUMP_NAMES, 3);
    LookupNamed(f, DUMP_NAMES, 4);
    LookupNamed(f, DUMP_NAMES, 5);
    LookupNamed(f, DUMP_NAMES, 6);
    LookupNamed(f, DUMP_NAMES, 7);
  }

  /** Reading back a stored action gives the action that was confirmed. */
  lemma {:induction false} ReadDump(c: C.ConfirmedAction, proposal: Json, runId: Id, planId: Id, order: int)
    requires order > 0 && C.CarriesProposal(c, proposal, runId, planId, order)
    ensures E.ReadAction(C.Dump(c)) == Ok(c.action)
  {
    DumpFields(c);
    C.KeyParts(runId, planId, c.action.ref);
  }

  ghost predicate ReadsAs(item: Json, action: Action) {
    E.ReadAction(item) == Ok(action)
  }

  ghost predicate Apart(a: Action, b: Action) {
    a.ref != b.ref && a.order != b.order
  }

  lemma {:induction false} NewIsUnseen(before: seq<Action>, a: Action)
    requires forall j | 0 <= j < |before| :: Apart(before[j], a)
    ensures a.ref !in E.RefsOf(before) && a.order !in E.OrdersOf(before)
  {
    forall b | b in before ensures Apart(b, a) {
      var j :| 0 <= j < |before| && before[j] == b;
    }
  }

  lemma {:induction false} ReadOneMoreApart(items: seq<Json>, before: seq<Action>, a: Action)
    requires |before| < |items| && E.ReadActions(items[..|before|]) == Ok(before)
    requires ReadsAs(items[|before|], a) && forall j | 0 <= j < |before| :: Apart(before[j], a)
    ensures E.ReadActions(items[..|before| + 1]) == Ok(before + [a])
  {
    E.ReadOneMore(items, |before|);
    NewIsUnseen(before, a);
  }

  /** Actions that read back one by one, with distinct refs and orders, read back together. */
  lemma {:induction false} ReadTogether(items: seq<Json>, actions: seq<Action>, n: nat)
    requires n <= |items| == |actions|
    requires forall i | 0 <= i < |items| :: ReadsAs(items[i], actions[i])
    requires forall i, j | 0 <= i < j < |actions| :: Apart(actions[i], actions[j])
    ensures E.ReadActions(items[..n]) == Ok(actions[..n])
  {
    if n > 0 {
      var before, last := actions[..n - 1], actions[n - 1];
      ReadTogether(items, actions, n - 1);
      forall j | 0 <= j < |before| ensures Apart(before[j], last) {
        assert Apart(actions[j], actions[n - 1]);
      }
      assert ReadsAs(items[n - 1], last);
      ReadOneMoreApart(items, before, last);
      assert actions[..n] == before + [last];
    }
  }

  /**
   * The executor's queue of a confirmed plan is the list of confirmed actions itself: its sort moves nothing. Each
   * queued action carries its proposal's tool, target and payload, so they reach the gateway in proposal order, under
   * pairwise different keys.
   */
  lemma {:induction false} ConfirmedQueue(json: PlanJson, runId: Id, planId: Id, actor: string, source: string)
    requires C.ConfirmActions(runId, planId, C.Proposed(json)).Ok?
    ensures var actions := C.ConfirmActions(runId, planId, C.Proposed(json)).value;
            var queue := ActionsOf(actions);
            && E.QueuedActions(C.ConfirmedJson(json, runId, planId, actor, source, actions)) == Ok(queue)
            && |queue| == |C.Proposed(json)|
            && (forall i | 0 <= i < |queue| :: FromProposal(queue[i], C.Proposed(json)[i], runId, planId, i + 1))
            && (forall i, j | 0 <= i < j < |queue| :: queue[i].key != queue[j].key)
  {
    var proposed := C.Proposed(json);
    C.ConfirmedActionsShape(runId, planId, proposed);
    var actions := C.ConfirmActions(runId, planId, proposed).value;
    var queue := ActionsOf(actions);
    var items := C.DumpAll(actions).items;
    forall i | 0 <= i < |queue|
      ensures FromProposal(queue[i], proposed[i], runId, planId, i + 1) && ReadsAs(items[i], queue[i])
    {
      assert C.CarriesProposal(actions[i], proposed[i], runId, planId, i + 1);
      ReadDump(actions[i], proposed[i], runId, planId, i + 1);
    }
    QueueInOrder(queue, proposed, runId, planId);
    ReadTogether(items, queue, |queue|);
    assert items[..|queue|] == items && queue[..|queue|] == queue;
    SortByOfSorted(queue, E.OrderOf);
  }

  lemma {:induction false} QueueInOrder(queue: seq<Action>, proposed: seq<Json>, runId: Id, planId: Id)
    requires |queue| == |proposed|
    requires forall i | 0 <= i < |queue| :: FromProposal(queue[i], proposed[i], runId, planId, i + 1)
    requires forall i, j | 0 <= i < j < |queue| :: queue[i].ref != queue[j].ref
    ensures forall i, j | 0 <= i < j < |queue| ::
              queue[i].key != queue[j].key && queue[i].order != queue[j].order
                && E.OrderOf(queue[i]) <= E.OrderOf(queue[j])
  {
    forall i, j | 0 <= i < j < |queue|
      ensures queue[i].key != queue[j].key && queue[i].order == i + 1 && queue[j].order == j + 1
    {
      assert FromProposal(queue[i], proposed[i], runId, planId, i + 1);
      assert FromProposal(queue[j], proposed[j], runId, planId, j + 1);
      if queue[i].key == queue[j].key {
        C.KeyInjective(runId, planId, queue[i].ref, runId, planId, queue[j].ref);
      }
    }
  }

  ghost predicate FromProposal(a: Action, proposal: Json, runId: Id, planId: Id, order: int) {
    && (exists reason :: C.Proposes(proposal, C.Proposal(a.ref, a.tool, a.target, reason, a.payload)))
    && a.order == order && a.key == C.IdempotencyKey(runId, planId, a.ref)
  }

  /** A plan that `confirm_plan` has just confirmed is accepted by the executor exactly when it names a provider. */
  lemma {:induction false} ConfirmedPlanIsExecutable(
      rows: PlanRows, runId: Id, planId: Id, actor: string, source: string)
    requires planId in rows && rows[planId].status.Selected?
    requires C.Confirm(rows, runId, planId, actor, source).1.Ok?
    ensures var (after, result) := C.Confirm(rows, runId, planId, actor, source);
            && after[planId].status.Confirmed? && result.value.status == "confirmed"
            && result.value.actions == after[planId].json.confirmedActions
            && E.QueuedActions(after[planId].json).Ok?
            && (E.LoadProblem(after, runId, planId).None? <==>
                rows[planId].json.provider.Str? && rows[planId].json.provider.s != "")
  {
    ConfirmedQueue(rows[planId].json, runId, planId, actor, source);
  }
}
