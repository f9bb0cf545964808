/** Human confirmation: a reviewed plan becomes ordered actions with idempotency keys, or is declined. */
module Confirmations {
  import opened Wrappers
  import opened Strings
  import opened JsonTrees
  import opened Gateway
  import opened Plans

  const EXECUTION_FIELD_KEYS: set<string> := {"idempotency_key", "confirmation_id", "action_id"}

  datatype ConfirmationError =
    | PlanMissing
    | WrongRun
    | NotSelected
    | AlreadyDeclined
    | AlreadyConfirmed
    | WrongStatus
    | NotReviewedPlan
    | NotSafeToPresent
    | DraftMissing
    | ActionsNotAList
    | ActionNotAnObject
    | MissingField(name: string)
    | NotAWriteAction
    | MustRequireConfirmation
    | PayloadNotAnObject
    | ExecutionFields(names: set<string>)
    | KeyTooLong
    | DuplicateKey
    | NoConfirmation
    | BadConfirmationStatus

  datatype ConfirmationResult = ConfirmationResult(status: string, confirmationId: string, actions: Json)

  // ---- one proposed action -------------------------------------------------------------------

  datatype Proposal = Proposal(ref: string, actionType: string, target: string, reason: string, payload: Json)

  predicate IsExecutionFieldKey(name: string) {
    Fold(name) in EXECUTION_FIELD_KEYS
  }

  /** The execution fields that occur anywhere in a proposed action. */
  function ForbiddenKeys(value: Json): set<string> {
    match value
    case Obj(fields) => ForbiddenInFields(fields)
    case Arr(items) => ForbiddenInItems(items)
    case _ => {}
  }

  function ForbiddenInFields(fields: seq<Field>): set<string> {
    if fields == [] then {}
    else
      var last := |fields| - 1;
      ForbiddenInFields(fields[..last])
      + (if IsExecutionFieldKey(fields[last].name) then {fields[last].name} else {})
      + ForbiddenKeys(fields[last].value)
  }

  function ForbiddenInItems(items: seq<Json>): set<string> {
    if items == [] then {}
    else
      var last := |items| - 1;
      ForbiddenInItems(items[..last]) + ForbiddenKeys(items[last])
  }

  method FindForbiddenKeys(value: Json) returns (matches: set<string>)
    ensures matches == ForbiddenKeys(value)
    decreases value
  {
    matches := {};
    match value
    case Obj(fields) =>
      for i := 0 to |fields|
        invariant matches == ForbiddenInFields(fields[..i])
      {
        assert fields[..i + 1][..i] == fields[..i];
        if IsExecutionFieldKey(fields[i].name) {
          matches := matches + {fields[i].name};
        }
        var inner := FindForbiddenKeys(fields[i].value);
        matches := matches + inner;
      }
      assert fields[..|fields|] == fields;
    case Arr(items) =>
      for i := 0 to |items|
        invariant matches == ForbiddenInItems(items[..i])
      {
        assert items[..i + 1][..i] == items[..i];
        var inner := FindForbiddenKeys(items[i]);
        matches := matches + inner;
      }
      assert items[..|items|] == items;
    case _ =>
  }

  /** The search finds something exactly when an execution field sits at some depth of the action. */
  lemma {:induction false} ForbiddenKeysAreFound(value: Json)
    ensures ForbiddenKeys(value) != {} <==> HasKey(value, IsExecutionFieldKey)
    decreases value, 1
  {
    match value
    case Obj(fields) =>
      ForbiddenFieldsAreFound(fields);
      if k :| 0 <= k < |fields| &&
              (IsExecutionFieldKey(fields[k].name) || HasKey(fields[k].value, IsExecutionFieldKey)) {
        KeyInField(fields, k, IsExecutionFieldKey);
      }
      if HasKey(value, IsExecutionFieldKey) {
        KeyInside(value, IsExecutionFieldKey);
      }
    case Arr(items) =>
      ForbiddenItemsAreFound(items);
      if k :| 0 <= k < |items| && HasKey(items[k], IsExecutionFieldKey) {
        KeyInItem(items, k, IsExecutionFieldKey);
      }
      if HasKey(value, IsExecutionFieldKey) {
        KeyInside(value, IsExecutionFieldKey);
      }
    case _ =>
      if HasKey(value, IsExecutionFieldKey) {
        KeyInside(value, IsExecutionFieldKey);
      }
  }

  lemma {:induction false} ForbiddenFieldsAreFound(fields: seq<Field>)
    ensures ForbiddenInFields(fields) != {} <==>
      exists k | 0 <= k < |fields| ::
        IsExecutionFieldKey(fields[k].name) || HasKey(fields[k].value, IsExecutionFieldKey)
    decreases fields, 0
  {
    if fields != [] {
      var last := |fields| - 1;
      ForbiddenFieldsAreFound(fields[..last]);
      ForbiddenKeysAreFound(fields[last].value);
    }
  }

  lemma {:induction false} ForbiddenItemsAreFound(items: seq<Json>)
    ensures ForbiddenInItems(items) != {} <==> exists k | 0 <= k < |items| :: HasKey(items[k], IsExecutionFieldKey)
    decreases items, 0
  {
    if items != [] {
      var last := |items| - 1;
      ForbiddenItemsAreFound(items[..last]);
      ForbiddenKeysAreFound(items[last]);
    }
  }

  lemma {:induction false} ExecutionKeysExactly(name: string)
    ensures IsExecutionFieldKey(name) <==>
            Fold(name) == "idempotency_key" || Fold(name) == "confirmation_id" || Fold(name) == "action_id"
  {
  }

  ghost function Called(name: string): string -> bool {
    key => key == name
  }

  /** The search finds exactly the execution fields that sit at some depth of the action. */
  lemma {:induction false} ForbiddenKeysExactly(value: Json, name: string)
    ensures name in ForbiddenKeys(value) <==> IsExecutionFieldKey(name) && HasKey(value, Called(name))
    decreases value, 1
  {
    match value
    case Obj(fields) =>
      ForbiddenFieldsExactly(fields, name);
      if k :| 0 <= k < |fields| && (fields[k].name == name || HasKey(fields[k].value, Called(name))) {
        KeyInField(fields, k, Called(name));
      }
      if HasKey(value, Called(name)) {
        KeyInside(value, Called(name));
      }
    case Arr(items) =>
      ForbiddenItemsExactly(items, name);
      if k :| 0 <= k < |items| && HasKey(items[k], Called(name)) {
        KeyInItem(items, k, Called(name));
      }
      if HasKey(value, Called(name)) {
        KeyInside(value, Called(name));
      }
    case _ =>
      if HasKey(value, Called(name)) {
        KeyInside(value, Called(name));
      }
  }

  lemma {:induction false} ForbiddenFieldsExactly(fields: seq<Field>, name: string)
    ensures name in ForbiddenInFields(fields) <==>
            && IsExecutionFieldKey(name)
            && exists k | 0 <= k < |fields| :: fields[k].name == name || HasKey(fields[k].value, Called(name))
    decreases fields, 0
  {
    if fields != [] {
      var last := |fields| - 1;
      ForbiddenFieldsExactly(fields[..last], name);
      ForbiddenKeysExactly(fields[last].value, name);
    }
  }

  lemma {:induction false} ForbiddenItemsExactly(items: seq<Json>, name: string)
    ensures name in ForbiddenInItems(items) <==>
            IsExecutionFieldKey(name) && exists k | 0 <= k < |items| :: HasKey(items[k], Called(name))
    decreases items, 0
  {
    if items != [] {
      var last := |items| - 1;
      ForbiddenItemsExactly(items[..last], name);
      ForbiddenKeysExactly(items[last], name);
    }
  }

  /** `_validate_proposed_action`, with the checks in their order. */
  function CheckProposal(action: Json): Result<Proposal, ConfirmationError> {
    if !action.Obj? then Err(ActionNotAnObject)
    else
      var f := action.fields;
      var payload := Lookup(f, "payload");
      if TextAt(f, "action_ref") == "" then Err(MissingField("action_ref"))
      else if TextAt(f, "action_type") == "" then Err(MissingField("action_type"))
      else if TextAt(f, "target_id") == "" then Err(MissingField("target_id"))
      else if TextAt(f, "reason") == "" then Err(MissingField("reason"))
      else if TextAt(f, "action_type") !in WRITE_TOOLS then Err(NotAWriteAction)
      else if Lookup(f, "requires_confirmation") != Some(Bool(true)) then Err(MustRequireConfirmation)
      else if payload.Some? && !payload.value.Null? && !payload.value.Obj? then Err(PayloadNotAnObject)
      else if ForbiddenKeys(action) != {} then Err(ExecutionFields(ForbiddenKeys(action)))
      else Ok(Proposal(TextAt(f, "action_ref"), TextAt(f, "action_type"), TextAt(f, "target_id"), TextAt(f, "reason"),
                       PayloadOrEmpty(payload)))
  }

  /** `action.get("payload") or {}`. */
  function PayloadOrEmpty(payload: Option<Json>): (p: Json) {
    if payload.Some? && payload.value.Obj? then payload.value else Obj([])
  }

  method ValidateProposedAction(action: Json) returns (checked: Result<Proposal, ConfirmationError>)
    ensures checked == CheckProposal(action)
  {
    if !action.Obj? {
      return Err(ActionNotAnObject);
    }
    var names := ["action_ref", "action_type", "target_id", "reason"];
    for i := 0 to |names|
      invariant forall j | 0 <= j < i :: TextAt(action.fields, names[j]) != ""
    {
      assert names[0] == "action_ref" && names[1] == "action_type" && names[2] == "target_id" && names[3] == "reason";
      assert forall j | 0 <= j < i :: TextAt(action.fields, names[j]) != "";
      if TextAt(action.fields, names[i]) == "" {
        assert i == 0 || i == 1 || i == 2 || i == 3;
        return Err(MissingField(names[i]));
      }
    }
    assert names[0] == "action_ref" && names[1] == "action_type" && names[2] == "target_id" && names[3] == "reason";
    if TextAt(action.fields, "action_type") !in WRITE_TOOLS {
      return Err(NotAWriteAction);
    }
    if Lookup(action.fields, "requires_confirmation") != Some(Bool(true)) {
      return Err(MustRequireConfirmation);
    }
    var payload := Lookup(action.fields, "payload");
    if payload.Some? && !payload.value.Null? && !payload.value.Obj? {
      return Err(PayloadNotAnObject);
    }
    var forbidden := FindForbiddenKeys(action);
    if forbidden != {} {
      return Err(ExecutionFields(forbidden));
    }
    checked := Ok(Proposal(TextAt(action.fields, "action_ref"), TextAt(action.fields, "action_type"),
                           TextAt(action.fields, "target_id"), TextAt(action.fields, "reason"),
                           PayloadOrEmpty(payload)));
  }

  /** The field holds that text, which is not empty. */
  /** The action is a well-formed proposal of these parts: each stands under its own name. */
  ghost predicate Proposes(action: Json, p: Proposal) {
    && action.Obj?
    && HasText(action.fields, "action_ref", p.ref) && HasText(action.fields, "action_type", p.actionType)
    && HasText(action.fields, "target_id", p.target) && HasText(action.fields, "reason", p.reason)
    && p.actionType in {"join_queue", "reserve_restaurant", "book_ticket", "order_addon", "send_message"}
    && Lookup(action.fields, "requires_confirmation") == Some(Bool(true))
    && HasPayload(action.fields, p.payload)
    && !HasKey(action, IsExecutionFieldKey)
  }

  /** An action passes the checks exactly as the proposal that it is. */
  lemma {:induction false} CheckedExactly(action: Json, p: Proposal)
    ensures CheckProposal(action) == Ok(p) <==> Proposes(action, p)
  {
    ForbiddenKeysAreFound(action);
  }

  ghost predicate NoWriteAction(fields: seq<Field>) {
    forall tool | tool in {"join_queue", "reserve_restaurant", "book_ticket", "order_addon", "send_message"} ::
      !HasText(fields, "action_type", tool)
  }

  /** What the checks of a proposal reject, in their order. */
  ghost function FirstObjection(action: Json): Option<ConfirmationError> {
    if !action.Obj? then Some(ActionNotAnObject)
    else if NoText(action.fields, "action_ref") then Some(MissingField("action_ref"))
    else if NoText(action.fields, "action_type") then Some(MissingField("action_type"))
    else if NoText(action.fields, "target_id") then Some(MissingField("target_id"))
    else if NoText(action.fields, "reason") then Some(MissingField("reason"))
    else if NoWriteAction(action.fields) then Some(NotAWriteAction)
    else if Lookup(action.fields, "requires_confirmation") != Some(Bool(true)) then Some(MustRequireConfirmation)
    else if NoPayload(action.fields) then Some(PayloadNotAnObject)
    else if HasKey(action, IsExecutionFieldKey) then Some(ExecutionFields(ForbiddenKeys(action)))
    else None
  }

  /** A proposal is rejected exactly for the first of the checks that it fails. */
  lemma {:induction false} RejectedExactly(action: Json)
    ensures FirstObjection(action) == match CheckProposal(action) case Err(e) => Some(e) case Ok(_) => None
  {
    if action.Obj? {
      NoTextExactly(action.fields, "action_ref");
      NoTextExactly(action.fields, "action_type");
      NoTextExactly(action.fields, "target_id");
      NoTextExactly(action.fields, "reason");
      NoWriteActionExactly(action.fields);
      NoPayloadExactly(action.fields);
      ForbiddenKeysAreFound(action);
    }
  }

  lemma {:induction false} NoWriteActionExactly(fields: seq<Field>)
    ensures NoWriteAction(fields) <==> TextAt(fields, "action_type") !in WRITE_TOOLS
  {
    TextExactly(fields, "action_type", TextAt(fields, "action_type"));
  }

  // ---- idempotency keys ------------------------------------------------------------------------

  function IdempotencyKey(runId: Id, planId: Id, ref: string): string {
    "confirm:" + runId + ":" + planId + ":" + ref
  }

  /** Because UUIDs have a fixed width, a key determines its run, its plan and its action ref. */
  lemma {:induction false} KeyInjective(run1: Id, plan1: Id, ref1: string, run2: Id, plan2: Id, ref2: string)
    requires IdempotencyKey(run1, plan1, ref1) == IdempotencyKey(run2, plan2, ref2)
    ensures run1 == run2 && plan1 == plan2 && ref1 == ref2
  {
    KeyParts(run1, plan1, ref1);
    KeyParts(run2, plan2, ref2);
  }

  lemma {:induction false} KeyParts(runId: Id, planId: Id, ref: string)
    ensures var key := IdempotencyKey(runId, planId, ref);
            |key| == 82 + |ref| && key[8..44] == runId && key[45..81] == planId && key[82..] == ref
  {
  }

  // ---- the confirmed action list ---------------------------------------------------------------

  /** A confirmed action with the reason that only the document keeps. */
  datatype ConfirmedAction = ConfirmedAction(action: Action, reason: string)

  function KeysOf(actions: seq<ConfirmedAction>): set<string> {
    set a | a in actions :: a.action.key
  }

  /** `_confirmed_actions`: the first problem in proposal order, or one action per proposal. */
  function ConfirmActions(runId: Id, planId: Id, proposed: seq<Json>): Result<seq<ConfirmedAction>, ConfirmationError> {
    if proposed == [] then Ok([])
    else
      var last := |proposed| - 1;
      match ConfirmActions(runId, planId, proposed[..last])
      case Err(e) => Err(e)
      case Ok(before) => AddAction(runId, planId, before, last + 1, CheckProposal(proposed[last]))
  }

  /** One more action, numbered `order`, behind those confirmed so far. */
  function AddAction(
      runId: Id, planId: Id, before: seq<ConfirmedAction>, order: nat, checked: Result<Proposal, ConfirmationError>)
    : Result<seq<ConfirmedAction>, ConfirmationError>
  {
    match checked
    case Err(e) => Err(e)
    case Ok(p) =>
      var key := IdempotencyKey(runId, planId, p.ref);
      if |key| > 255 then Err(KeyTooLong)
      else if key in KeysOf(before) then Err(DuplicateKey)
      else Ok(before + [ConfirmedAction(Action(p.ref, order, p.actionType, p.target, p.payload, key), p.reason)])
  }

  lemma {:induction false} ConfirmOneMore(runId: Id, planId: Id, proposed: seq<Json>, i: nat)
    requires i < |proposed| && ConfirmActions(runId, planId, proposed[..i]).Ok?
    ensures ConfirmActions(runId, planId, proposed[..i + 1])
            == AddAction(runId, planId, ConfirmActions(runId, planId, proposed[..i]).value, i + 1,
                         CheckProposal(proposed[i]))
  {
    assert proposed[..i + 1][..i] == proposed[..i];
  }

  lemma {:induction false} ConfirmActionsFailsOnPrefix(runId: Id, planId: Id, proposed: seq<Json>, n: nat)
    requires n <= |proposed| && ConfirmActions(runId, planId, proposed[..n]).Err?
    ensures ConfirmActions(runId, planId, proposed) == ConfirmActions(runId, planId, proposed[..n])
    decreases |proposed|
  {
    if n < |proposed| {
      var last := |proposed| - 1;
      assert proposed[..last][..n] == proposed[..n];
      ConfirmActionsFailsOnPrefix(runId, planId, proposed[..last], n);
    } else {
      assert proposed[..n] == proposed;
    }
  }

  /**
   * An accepted list has one action per proposal, in proposal order and numbered from one; each carries its
   * proposal's tool, target and payload, and the key of its ref; and the refs are distinct.
   */
  lemma {:induction false} ConfirmedActionsShape(runId: Id, planId: Id, proposed: seq<Json>)
    requires ConfirmActions(runId, planId, proposed).Ok?
    ensures ShapedBy(ConfirmActions(runId, planId, proposed).value, proposed, runId, planId)
  {
    if proposed != [] {
      var last := |proposed| - 1;
      ConfirmedActionsShape(runId, planId, proposed[..last]);
      var before := ConfirmActions(runId, planId, proposed[..last]).value;
      var actions := ConfirmActions(runId, planId, proposed).value;
      assert actions == before + [actions[last]];
      AddedCarries(runId, planId, before, proposed[last], last + 1);
      ShapeGrows(before, proposed, actions[last], runId, planId);
    }
  }

  /** One action per proposal, in order and numbered from one, with distinct refs. */
  ghost predicate ShapedBy(actions: seq<ConfirmedAction>, proposed: seq<Json>, runId: Id, planId: Id) {
    && |actions| == |proposed|
    && (forall i | 0 <= i < |actions| :: CarriesProposal(actions[i], proposed[i], runId, planId, i + 1))
    && (forall i, j | 0 <= i < j < |actions| :: actions[i].action.ref != actions[j].action.ref)
  }

  lemma {:induction false} AddedCarries(runId: Id, planId: Id, before: seq<ConfirmedAction>, proposal: Json, order: nat)
    requires AddAction(runId, planId, before, order, CheckProposal(proposal)).Ok?
    ensures var added := AddAction(runId, planId, before, order, CheckProposal(proposal)).value;
            && |added| == |before| + 1 && added[..|before|] == before
            && CarriesProposal(added[|before|], proposal, runId, planId, order)
            && added[|before|].action.key !in KeysOf(before)
  {
    KeyParts(runId, planId, CheckProposal(proposal).value.ref);
    CheckedExactly(proposal, CheckProposal(proposal).value);
  }

  lemma {:induction false} ShapeGrows(
      before: seq<ConfirmedAction>, proposed: seq<Json>, c: ConfirmedAction, runId: Id, planId: Id)
    requires proposed != [] && ShapedBy(before, proposed[..|proposed| - 1], runId, planId)
    requires CarriesProposal(c, proposed[|proposed| - 1], runId, planId, |proposed|)
    requires c.action.key !in KeysOf(before)
    ensures ShapedBy(before + [c], proposed, runId, planId)
  {
    var last := |proposed| - 1;
    forall i | 0 <= i < last
      ensures before[i].action.ref != c.action.ref && CarriesProposal(before[i], proposed[i], runId, planId, i + 1)
    {
      assert CarriesProposal(before[i], proposed[..last][i], runId, planId, i + 1);
      assert before[i] in before && before[i].action.key in KeysOf(before);
    }
  }

  ghost predicate CarriesProposal(c: ConfirmedAction, proposal: Json, runId: Id, planId: Id, order: int) {
    var a := c.action;
    && a.order == order
    && a.key == IdempotencyKey(runId, planId, a.ref)
    && 0 < |a.ref| <= 173
    && a.tool in WRITE_TOOLS && a.target != "" && a.payload.Obj? && c.reason != ""
    && Proposes(proposal, Proposal(a.ref, a.tool, a.target, c.reason, a.payload))
  }

  /** It proposes something, under a ref that fits the key column. */
  ghost predicate Acceptable(proposal: Json) {
    exists p :: Proposes(proposal, p) && |p.ref| <= 173
  }

  lemma {:induction false} AcceptableExactly(proposal: Json)
    ensures Acceptable(proposal) <==> CheckProposal(proposal).Ok? && |CheckProposal(proposal).value.ref| <= 173
    ensures CheckProposal(proposal).Ok? ==> RefOf(proposal) == CheckProposal(proposal).value.ref
  {
    if CheckProposal(proposal).Ok? {
      CheckedExactly(proposal, CheckProposal(proposal).value);
    }
    if p :| Proposes(proposal, p) && |p.ref| <= 173 {
      CheckedExactly(proposal, p);
    }
  }

  ghost function RefOf(proposal: Json): string {
    if proposal.Obj? then TextAt(proposal.fields, "action_ref") else ""
  }

  ghost predicate AllDistinct<T>(items: seq<T>, name: T -> string) {
    forall i, j | 0 <= i < j < |items| :: name(items[i]) != name(items[j])
  }

  ghost predicate IsNew<T>(before: seq<T>, item: T, name: T -> string) {
    forall i | 0 <= i < |before| :: name(before[i]) != name(item)
  }

  lemma {:induction false} DistinctGrows<T>(before: seq<T>, item: T, name: T -> string)
    ensures AllDistinct(before + [item], name) <==> AllDistinct(before, name) && IsNew(before, item, name)
  {
    var items := before + [item];
    if AllDistinct(items, name) {
      forall i | 0 <= i < |before| ensures name(before[i]) != name(item) {
        assert items[i] == before[i] && items[|before|] == item;
      }
      forall i, j | 0 <= i < j < |before| ensures name(before[i]) != name(before[j]) {
        assert items[i] == before[i] && items[j] == before[j];
      }
    }
  }

  ghost predicate RefsDistinct(proposed: seq<Json>) {
    AllDistinct(proposed, RefOf)
  }

  ghost predicate AllAcceptable(proposed: seq<Json>) {
    forall i | 0 <= i < |proposed| :: Acceptable(proposed[i])
  }

  /** A key is taken exactly when an earlier proposal has the same ref. */
  lemma {:induction false} KeyTaken(runId: Id, planId: Id, proposed: seq<Json>, ref: string)
    requires ConfirmActions(runId, planId, proposed).Ok?
    ensures IdempotencyKey(runId, planId, ref) in KeysOf(ConfirmActions(runId, planId, proposed).value)
       <==> exists i | 0 <= i < |proposed| :: RefOf(proposed[i]) == ref
  {
    ConfirmedActionsShape(runId, planId, proposed);
    var actions := ConfirmActions(runId, planId, proposed).value;
    var key := IdempotencyKey(runId, planId, ref);
    if key in KeysOf(actions) {
      var i :| 0 <= i < |actions| && actions[i].action.key == key;
      assert CarriesProposal(actions[i], proposed[i], runId, planId, i + 1);
      KeyInjective(runId, planId, actions[i].action.ref, runId, planId, ref);
      assert RefOf(proposed[i]) == ref;
    }
    if i :| 0 <= i < |proposed| && RefOf(proposed[i]) == ref {
      assert CarriesProposal(actions[i], proposed[i], runId, planId, i + 1);
      assert actions[i] in actions;
    }
  }

  /**
   * What is accepted, and nothing else is: every proposal passes its checks with a ref that fits the key column,
   * and no two refs are equal. So the duplicate-key check is exactly a duplicate-ref check.
   */
  lemma {:induction false} AcceptedExactly(runId: Id, planId: Id, proposed: seq<Json>)
    ensures ConfirmActions(runId, planId, proposed).Ok? <==> AllAcceptable(proposed) && RefsDistinct(proposed)
  {
    if proposed != [] {
      var prefix, proposal := proposed[..|proposed| - 1], proposed[|proposed| - 1];
      assert proposed == prefix + [proposal];
      AcceptedExactly(runId, planId, prefix);
      DistinctGrows(prefix, proposal, RefOf);
      AcceptableGrows(prefix, proposal);
      OneMoreAccepted(runId, planId, prefix, proposal);
    }
  }

  lemma {:induction false} AcceptableGrows(prefix: seq<Json>, proposal: Json)
    ensures AllAcceptable(prefix + [proposal]) <==> AllAcceptable(prefix) && Acceptable(proposal)
  {
    var all := prefix + [proposal];
    if AllAcceptable(all) {
      assert all[|prefix|] == proposal;
      assert forall i | 0 <= i < |prefix| :: all[i] == prefix[i];
    }
  }

  lemma {:induction false} OneMoreAccepted(runId: Id, planId: Id, prefix: seq<Json>, proposal: Json)
    ensures ConfirmActions(runId, planId, prefix + [proposal]).Ok? <==>
            ConfirmActions(runId, planId, prefix).Ok? && Acceptable(proposal) && IsNew(prefix, proposal, RefOf)
  {
    assert (prefix + [proposal])[..|prefix|] == prefix;
    AcceptableExactly(proposal);
    if ConfirmActions(runId, planId, prefix).Ok? {
      KeyParts(runId, planId, RefOf(proposal));
      KeyTaken(runId, planId, prefix, RefOf(proposal));
    }
  }

  /** What is wrong with a proposal behind accepted ones: itself, or the length or the repetition of its ref. */
  ghost predicate ObjectsTo(before: seq<Json>, proposal: Json, e: ConfirmationError) {
    match FirstObjection(proposal)
    case Some(objection) => e == objection
    case None =>
      if |RefOf(proposal)| > 173 then e == KeyTooLong else e == DuplicateKey && !IsNew(before, proposal, RefOf)
  }

  ghost predicate AllAccepted(proposed: seq<Json>) {
    AllAcceptable(proposed) && RefsDistinct(proposed)
  }

  ghost predicate ObjectedAt(proposed: seq<Json>, i: nat, e: ConfirmationError)
    requires i < |proposed|
  {
    AllAccepted(proposed[..i]) && ObjectsTo(proposed[..i], proposed[i], e)
  }

  /** A list is rejected at the first proposal that is. */
  lemma {:induction false} ListRejectedExactly(runId: Id, planId: Id, proposed: seq<Json>)
    requires ConfirmActions(runId, planId, proposed).Err?
    ensures exists i | 0 <= i < |proposed| :: ObjectedAt(proposed, i, ConfirmActions(runId, planId, proposed).error)
  {
    var prefix := proposed[..|proposed| - 1];
    AcceptedExactly(runId, planId, prefix);
    if ConfirmActions(runId, planId, prefix).Err? {
      ListRejectedExactly(runId, planId, prefix);
      var i :| 0 <= i < |prefix| && ObjectedAt(prefix, i, ConfirmActions(runId, planId, prefix).error);
      assert prefix[..i] == proposed[..i] && prefix[i] == proposed[i];
      assert ObjectedAt(proposed, i, ConfirmActions(runId, planId, proposed).error);
    } else {
      LastIsRejected(runId, planId, prefix, proposed[|prefix|]);
      assert ObjectedAt(proposed, |prefix|, ConfirmActions(runId, planId, proposed).error);
    }
  }

  lemma {:induction false} LastIsRejected(runId: Id, planId: Id, prefix: seq<Json>, proposal: Json)
    requires ConfirmActions(runId, planId, prefix).Ok?
    requires var actions := ConfirmActions(runId, planId, prefix).value;
             AddAction(runId, planId, actions, |prefix| + 1, CheckProposal(proposal)).Err?
    ensures var actions := ConfirmActions(runId, planId, prefix).value;
            ObjectsTo(prefix, proposal,
                      AddAction(runId, planId, actions, |prefix| + 1, CheckProposal(proposal)).error)
  {
    RejectedExactly(proposal);
    AcceptableExactly(proposal);
    if CheckProposal(proposal).Ok? {
      KeyParts(runId, planId, RefOf(proposal));
      KeyTaken(runId, planId, prefix, RefOf(proposal));
    }
  }

  // ---- the stored document ---------------------------------------------------------------------

  /** `ConfirmedActionSpec.model_dump`. */
  function Dump(c: ConfirmedAction): Json {
    Obj([Field("action_ref", Str(c.action.ref)),
         Field("execution_order", Int(c.action.order)),
         Field("tool_name", Str(c.action.tool)),
         Field("target_id", Str(c.action.target)),
         Field("payload", c.action.payload),
         Field("idempotency_key", Str(c.action.key)),
         Field("user_confirmed", Bool(true)),
         Field("reason", Str(c.reason))])
  }

  function DumpAll(actions: seq<ConfirmedAction>): Json {
    Arr(seq(|actions|, i requires 0 <= i < |actions| => Dump(actions[i])))
  }

  function ConfirmationId(runId: Id, planId: Id): string {
    "confirmation:" + runId + ":" + planId
  }

  /** `_reviewed_plan_json`: None when the document may be presented for confirmation. */
  function ReviewProblem(json: PlanJson): Option<ConfirmationError> {
    if !json.isReviewedPlan then Some(NotReviewedPlan)
    else if !json.safeToPresent then Some(NotSafeToPresent)
    else if json.draft.None? then Some(DraftMissing)
    else if !json.draft.value.Null? && !json.draft.value.Arr? then Some(ActionsNotAList)
    else None
  }

  function Proposed(json: PlanJson): seq<Json> {
    if json.draft.Some? && json.draft.value.Arr? then json.draft.value.items else []
  }

  function ResultFromPlan(plan: Plan): Result<ConfirmationResult, ConfirmationError> {
    var problem := ReviewProblem(plan.json);
    if problem.Some? then Err(problem.value)
    else if plan.json.confirmation.None? then Err(NoConfirmation)
    else
      var confirmation := plan.json.confirmation.value;
      if confirmation.status != "confirmed" && confirmation.status != "declined" then Err(BadConfirmationStatus)
      else if !plan.json.confirmedActions.Null? && !plan.json.confirmedActions.Arr? then Err(ActionsNotAList)
      else Ok(ConfirmationResult(confirmation.status, confirmation.confirmationId, plan.json.confirmedActions))
  }

  function LoadProblem(rows: PlanRows, runId: Id, planId: Id): Option<ConfirmationError> {
    if planId !in rows then Some(PlanMissing)
    else if rows[planId].runId != runId then Some(WrongRun)
    else if !rows[planId].selected then Some(NotSelected)
    else None
  }

  /** The document `confirm_plan` stores. */
  function ConfirmedJson(
      json: PlanJson, runId: Id, planId: Id, actor: string, source: string, actions: seq<ConfirmedAction>): PlanJson {
    json.(confirmation := Some(Confirmation(ConfirmationId(runId, planId), "confirmed", actor, source, |actions|)),
          confirmedActions := DumpAll(actions))
  }

  /** The document `decline_plan` stores. */
  function DeclinedJson(json: PlanJson, runId: Id, planId: Id, actor: string, source: string): PlanJson {
    json.(confirmation := Some(Confirmation(ConfirmationId(runId, planId), "declined", actor, source, 0)),
          confirmedActions := Arr([]))
  }

  function Confirm(rows: PlanRows, runId: Id, planId: Id, actor: string, source: string)
    : (PlanRows, Result<ConfirmationResult, ConfirmationError>)
  {
    var problem := LoadProblem(rows, runId, planId);
    if problem.Some? then (rows, Err(problem.value))
    else
      var plan := rows[planId];
      if plan.status.Confirmed? then (rows, ResultFromPlan(plan))
      else if plan.status.Declined? then (rows, Err(AlreadyDeclined))
      else if !plan.status.Selected? then (rows, Err(WrongStatus))
      else if ReviewProblem(plan.json).Some? then (rows, Err(ReviewProblem(plan.json).value))
      else
        match ConfirmActions(runId, planId, Proposed(plan.json))
        case Err(e) => (rows, Err(e))
        case Ok(actions) =>
          var stored := WithPlan(rows, planId, Confirmed,
                                 ConfirmedJson(plan.json, runId, planId, actor, source, actions));
          (stored, ResultFromPlan(stored[planId]))
  }

  function Decline(rows: PlanRows, runId: Id, planId: Id, actor: string, source: string)
    : (PlanRows, Result<ConfirmationResult, ConfirmationError>)
  {
    var problem := LoadProblem(rows, runId, planId);
    if problem.Some? then (rows, Err(problem.value))
    else
      var plan := rows[planId];
      if plan.status.Declined? then (rows, ResultFromPlan(plan))
      else if plan.status.Confirmed? then (rows, Err(AlreadyConfirmed))
      else if !plan.status.Selected? then (rows, Err(WrongStatus))
      else if ReviewProblem(plan.json).Some? then (rows, Err(ReviewProblem(plan.json).value))
      else
        var stored := WithPlan(rows, planId, Declined, DeclinedJson(plan.json, runId, planId, actor, source));
        (stored, ResultFromPlan(stored[planId]))
  }

  // ---- what confirming and declining amount to -------------------------------------------------

  ghost predicate IsOwn(rows: PlanRows, runId: Id, planId: Id) {
    planId in rows && rows[planId].runId == runId && rows[planId].selected
  }

  /** A reviewed plan that is safe, with a draft that has no proposals or a list of them. */
  ghost predicate Presentable(json: PlanJson) {
    && json.isReviewedPlan && json.safeToPresent
    && (json.draft == Some(Null) || (json.draft.Some? && json.draft.value.Arr?))
  }

  ghost predicate MayBeReviewed(rows: PlanRows, runId: Id, planId: Id) {
    IsOwn(rows, runId, planId) && rows[planId].status == Selected && Presentable(rows[planId].json)
  }

  ghost predicate NotOwn(rows: PlanRows, runId: Id, planId: Id, e: ConfirmationError) {
    match e
    case PlanMissing => planId !in rows
    case WrongRun => planId in rows && rows[planId].runId != runId
    case NotSelected => planId in rows && rows[planId].runId == runId && !rows[planId].selected
    case _ => false
  }

  ghost predicate Unpresentable(json: PlanJson, e: ConfirmationError) {
    match e
    case NotReviewedPlan => !json.isReviewedPlan
    case NotSafeToPresent => json.isReviewedPlan && !json.safeToPresent
    case DraftMissing => json.isReviewedPlan && json.safeToPresent && json.draft.None?
    case ActionsNotAList =>
      && json.isReviewedPlan && json.safeToPresent && json.draft.Some?
      && json.draft != Some(Null) && !json.draft.value.Arr?
    case _ => false
  }

  /** A plan that is not the run's own selected one is left alone, by both calls. */
  lemma {:induction false} OnlyOwnPlans(rows: PlanRows, runId: Id, planId: Id, actor: string, source: string)
    ensures forall e | NotOwn(rows, runId, planId, e) ::
              && Confirm(rows, runId, planId, actor, source) == (rows, Err(e))
              && Decline(rows, runId, planId, actor, source) == (rows, Err(e))
    ensures IsOwn(rows, runId, planId) <==> forall e :: !NotOwn(rows, runId, planId, e)
  {
    if planId !in rows {
      assert NotOwn(rows, runId, planId, PlanMissing);
    } else if rows[planId].runId != runId {
      assert NotOwn(rows, runId, planId, WrongRun);
    } else if !rows[planId].selected {
      assert NotOwn(rows, runId, planId, NotSelected);
    }
  }

  /** What a confirmed or declined plan tells of itself. */
  ghost predicate ReadsBack(plan: Plan, result: Result<ConfirmationResult, ConfirmationError>) {
    match result
    case Ok(read) =>
      && Presentable(plan.json) && plan.json.confirmation.Some?
      && (read.status == "confirmed" || read.status == "declined")
      && read.status == plan.json.confirmation.value.status
      && read.confirmationId == plan.json.confirmation.value.confirmationId
      && read.actions == plan.json.confirmedActions && (read.actions.Null? || read.actions.Arr?)
    case Err(NoConfirmation) => Presentable(plan.json) && plan.json.confirmation.None?
    case Err(BadConfirmationStatus) =>
      && Presentable(plan.json) && plan.json.confirmation.Some?
      && plan.json.confirmation.value.status != "confirmed" && plan.json.confirmation.value.status != "declined"
    case Err(ActionsNotAList) =>
      || Unpresentable(plan.json, ActionsNotAList)
      || (&& Presentable(plan.json) && plan.json.confirmation.Some?
          && plan.json.confirmation.value.status in {"confirmed", "declined"}
          && !plan.json.confirmedActions.Null? && !plan.json.confirmedActions.Arr?)
    case Err(e) => Unpresentable(plan.json, e)
  }

  /** Neither call changes a plan that is not selected any more, and each tells the status that it finds. */
  lemma {:induction false} DecidedPlansStay(rows: PlanRows, runId: Id, planId: Id, actor: string, source: string)
    requires IsOwn(rows, runId, planId) && rows[planId].status != Selected
    ensures var (confirmed, toConfirm) := Confirm(rows, runId, planId, actor, source);
            var (declined, toDecline) := Decline(rows, runId, planId, actor, source);
            && confirmed == declined == rows
            && match rows[planId].status {
                 case Confirmed => ReadsBack(rows[planId], toConfirm) && toDecline == Err(AlreadyConfirmed)
                 case Declined => ReadsBack(rows[planId], toDecline) && toConfirm == Err(AlreadyDeclined)
                 case _ => toConfirm == toDecline == Err(WrongStatus)
               }
  {
  }

  /** A selected plan that may not be presented stays selected, and each call tells why. */
  lemma {:induction false} UnpresentableStays(rows: PlanRows, runId: Id, planId: Id, actor: string, source: string)
    requires IsOwn(rows, runId, planId) && rows[planId].status == Selected
    ensures forall e | Unpresentable(rows[planId].json, e) ::
              && Confirm(rows, runId, planId, actor, source) == (rows, Err(e))
              && Decline(rows, runId, planId, actor, source) == (rows, Err(e))
    ensures Presentable(rows[planId].json) <==> forall e :: !Unpresentable(rows[planId].json, e)
  {
    var json := rows[planId].json;
    assert Unpresentable(json, NotReviewedPlan) || Unpresentable(json, NotSafeToPresent)
      || Unpresentable(json, DraftMissing) || Unpresentable(json, ActionsNotAList) || Presentable(json);
  }

  lemma {:induction false} ConfirmationIdInjective(run1: Id, plan1: Id, run2: Id, plan2: Id)
    requires ConfirmationId(run1, plan1) == ConfirmationId(run2, plan2)
    ensures run1 == run2 && plan1 == plan2
  {
    var id := "confirmation:" + run1 + ":" + plan1;
    assert id[13..49] == run1 && id[50..86] == plan1;
    assert id == "confirmation:" + run2 + ":" + plan2;
    assert id[13..49] == run2 && id[50..86] == plan2;
  }

  /** The stored plan is the old one with another status, confirmation record and action list; no other plan changes. */
  ghost predicate ChangesOnly(
      rows: PlanRows, after: PlanRows, planId: Id, status: PlanStatus, confirmation: Confirmation, actions: Json) {
    && planId in rows
    && after == rows[planId := rows[planId].(
                       status := status,
                       json := rows[planId].json.(confirmation := Some(confirmation), confirmedActions := actions))]
  }

  /**
   * A selected plan is confirmed exactly when it is the run's, safe to present, and its proposals are all acceptable
   * with distinct refs; then only its status, confirmation record and action list change, and everything else stays.
   */
  lemma {:induction false} ConfirmsExactly(rows: PlanRows, runId: Id, planId: Id, actor: string, source: string)
    requires planId in rows && rows[planId].status.Selected?
    ensures var (after, result) := Confirm(rows, runId, planId, actor, source);
            var proposed := Proposed(rows[planId].json);
            && (result.Ok? <==>
                MayBeReviewed(rows, runId, planId) && AllAcceptable(proposed) && RefsDistinct(proposed))
            && (result.Err? ==> after == rows)
            && (result.Ok? ==>
                  && result.value.status == "confirmed" && result.value.actions.Arr?
                  && result.value.confirmationId == "confirmation:" + runId + ":" + planId
                  && |result.value.actions.items| == |proposed|
                  && ChangesOnly(
                       rows, after, planId, Confirmed,
                       Confirmation(result.value.confirmationId, "confirmed", actor, source, |proposed|),
                       result.value.actions))
            && (result.Err? && MayBeReviewed(rows, runId, planId) ==>
                exists i | 0 <= i < |proposed| :: ObjectedAt(proposed, i, result.error))
  {
    AcceptedExactly(runId, planId, Proposed(rows[planId].json));
    if ConfirmActions(runId, planId, Proposed(rows[planId].json)).Ok? {
      ConfirmedActionsShape(runId, planId, Proposed(rows[planId].json));
    } else {
      ListRejectedExactly(runId, planId, Proposed(rows[planId].json));
    }
  }

  /** Confirming again, by whomever, changes nothing and returns the first confirmation; declining then fails. */
  lemma {:induction false} ConfirmedOnce(
      rows: PlanRows, runId: Id, planId: Id, actor: string, source: string, actor2: string, source2: string)
    requires planId in rows && rows[planId].status.Selected?
    requires Confirm(rows, runId, planId, actor, source).1.Ok?
    ensures var (after, result) := Confirm(rows, runId, planId, actor, source);
            && Confirm(after, runId, planId, actor2, source2) == (after, result)
            && Decline(after, runId, planId, actor2, source2) == (after, Err(AlreadyConfirmed))
  {
    ConfirmsExactly(rows, runId, planId, actor, source);
  }

  /** A selected plan may be declined whatever its proposals are; that is final too, and leaves no action to execute. */
  lemma {:induction false} DeclinedOnce(
      rows: PlanRows, runId: Id, planId: Id, actor: string, source: string, actor2: string, source2: string)
    requires planId in rows && rows[planId].status.Selected?
    ensures var (after, result) := Decline(rows, runId, planId, actor, source);
            && (result.Ok? <==> MayBeReviewed(rows, runId, planId))
            && (result.Err? ==> after == rows)
            && (result.Ok? ==>
                  && ChangesOnly(
                       rows, after, planId, Declined,
                       Confirmation("confirmation:" + runId + ":" + planId, "declined", actor, source, 0), Arr([]))
                  && result.value.actions == Arr([]) && result.value.status == "declined"
                  && result.value.confirmationId == "confirmation:" + runId + ":" + planId
                  && Decline(after, runId, planId, actor2, source2) == (after, result)
                  && Confirm(after, runId, planId, actor2, source2) == (after, Err(AlreadyDeclined)))
  {
  }

  class HumanConfirmationService {
    const plans: PlanRepository

    constructor (plans: PlanRepository)
      ensures this.plans == plans
    {
      this.plans := plans;
    }

    method ConfirmPlan(runId: Id, planId: Id, actor: string, source: string)
      returns (result: Result<ConfirmationResult, ConfirmationError>)
      modifies plans
      ensures (plans.rows, result) == Confirm(old(plans.rows), runId, planId, actor, source)
    {
      var problem := LoadProblem(plans.rows, runId, planId);
      if problem.Some? {
        return Err(problem.value);
      }
      var plan := plans.rows[planId];
      if plan.status.Confirmed? {
        return ResultFromPlan(plan);
      }
      if plan.status.Declined? {
        return Err(AlreadyDeclined);
      }
      if !plan.status.Selected? {
        return Err(WrongStatus);
      }
      if ReviewProblem(plan.json).Some? {
        return Err(ReviewProblem(plan.json).value);
      }
      var actions := BuildConfirmedActions(runId, planId, Proposed(plan.json));
      if actions.Err? {
        return Err(actions.error);
      }
      plans.UpdateStatusAndPlanJson(planId, Confirmed,
                                    ConfirmedJson(plan.json, runId, planId, actor, source, actions.value));
      result := ResultFromPlan(plans.rows[planId]);
    }

    method BuildConfirmedActions(runId: Id, planId: Id, proposed: seq<Json>)
      returns (confirmed: Result<seq<ConfirmedAction>, ConfirmationError>)
      ensures confirmed == ConfirmActions(runId, planId, proposed)
    {
      var actions: seq<ConfirmedAction> := [];
      var seen: set<string> := {};
      for i := 0 to |proposed|
        invariant ConfirmActions(runId, planId, proposed[..i]) == Ok(actions)
        invariant seen == KeysOf(actions)
      {
        ConfirmOneMore(runId, planId, proposed, i);
        var checked := ValidateProposedAction(proposed[i]);
        var next;
        next, seen := AppendAction(runId, planId, actions, seen, i + 1, checked);
        if next.Err? {
          ConfirmActionsFailsOnPrefix(runId, planId, proposed, i + 1);
          return Err(next.error);
        }
        actions := next.value;
      }
      assert proposed[..|proposed|] == proposed;
      confirmed := Ok(actions);
    }

    /** One iteration: the key of the checked proposal is new, short enough, and joins the seen ones. */
    method AppendAction(
        runId: Id, planId: Id, actions: seq<ConfirmedAction>, seen: set<string>, order: nat,
        checked: Result<Proposal, ConfirmationError>)
      returns (next: Result<seq<ConfirmedAction>, ConfirmationError>, seen': set<string>)
      requires seen == KeysOf(actions)
      ensures next == AddAction(runId, planId, actions, order, checked)
      ensures next.Ok? ==> seen' == KeysOf(next.value)
    {
      if checked.Err? {
        return Err(checked.error), seen;
      }
      var p := checked.value;
      var key := IdempotencyKey(runId, planId, p.ref);
      if |key| > 255 {
        return Err(KeyTooLong), seen;
      }
      if key in seen {
        return Err(DuplicateKey), seen;
      }
      seen' := seen + {key};
      next := Ok(actions + [ConfirmedAction(Action(p.ref, order, p.actionType, p.target, p.payload, key), p.reason)]);
    }

    method DeclinePlan(runId: Id, planId: Id, actor: string, source: string)
      returns (result: Result<ConfirmationResult, ConfirmationError>)
      modifies plans
      ensures (plans.rows, result) == Decline(old(plans.rows), runId, planId, actor, source)
    {
      var problem := LoadProblem(plans.rows, runId, planId);
      if problem.Some? {
        return Err(problem.value);
      }
      var plan := plans.rows[planId];
      if plan.status.Declined? {
        return ResultFromPlan(plan);
      }
      if plan.status.Confirmed? {
        return Err(AlreadyConfirmed);
      }
      if !plan.status.Selected? {
        return Err(WrongStatus);
      }
      if ReviewProblem(plan.json).Some? {
        return Err(ReviewProblem(plan.json).value);
      }
      plans.UpdateStatusAndPlanJson(planId, Declined, DeclinedJson(plan.json, runId, planId, actor, source));
      result := ResultFromPlan(plans.rows[planId]);
    }
  }
}
