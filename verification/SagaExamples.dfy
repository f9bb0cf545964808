/** Inputs at which the promises of the saga fail, each outside the condition its theorem states. */
module SagaExamples {
  import opened Wrappers
  import opened Strings
  import opened JsonTrees
  import opened Gateway
  import opened Plans
  import opened SagaProtocol
  import opened ConfirmExecute
  import C = Confirmations
  import E = Execution
  import R = ExecutionResults
  import K = CrashResume
  import W = CrashWalks
  import Q = ConfirmRun

  const RUN: Id := "00000000-0000-0000-0000-00000000000a"
  const PLAN: Id := "00000000-0000-0000-0000-00000000000b"
  const NOBODY := Effects(map[], [])

  function Down(r: WriteRequest): Answer {
    Raised("down")
  }

  function Up(r: WriteRequest): Answer {
    Accepted(Obj([]))
  }

  predicate Unlimited(asked: seq<WriteRequest>, r: WriteRequest) {
    false
  }

  // ---- a rolled-back request --------------------------------------------------------------------

  function Wish(ref: string): Json {
    Obj([Field("action_ref", Str(ref)),
         Field("action_type", Str("join_queue")),
         Field("target_id", Str("table")),
         Field("reason", Str("dinner")),
         Field("requires_confirmation", Bool(true))])
  }

  const WISH_NAMES := ["action_ref", "action_type", "target_id", "reason", "requires_confirmation"]

  lemma {:induction false} WishNamesDiffer()
    ensures forall i, j | 0 <= i < j < |WISH_NAMES| :: WISH_NAMES[i] != WISH_NAMES[j]
    ensures forall i | 0 <= i < |WISH_NAMES| :: WISH_NAMES[i] != "payload"
  {
    assert |WISH_NAMES[0]| == 10 && |WISH_NAMES[1]| == 11 && |WISH_NAMES[2]| == 9;
    assert |WISH_NAMES[3]| == 6 && |WISH_NAMES[4]| == 21 && |"payload"| == 7;
  }

  lemma {:induction false} WishFields(ref: string)
    ensures var f := Wish(ref).fields;
            && TextAt(f, "action_ref") == ref && TextAt(f, "action_type") == "join_queue"
            && TextAt(f, "target_id") == "table" && TextAt(f, "reason") == "dinner"
            && Lookup(f, "requires_confirmation") == Some(Bool(true)) && Lookup(f, "payload") == None
  {
    var f := Wish(ref).fields;
    WishNamesDiffer();
    LookupNamed(f, WISH_NAMES, 0);
    LookupNamed(f, WISH_NAMES, 1);
    LookupNamed(f, WISH_NAMES, 2);
    LookupNamed(f, WISH_NAMES, 3);
    LookupNamed(f, WISH_NAMES, 4);
    assert forall i | 0 <= i < |f| :: f[i].name == WISH_NAMES[i];
    LookupMissing(f, "payload");
  }

  lemma {:induction false} WishNamesAreNoExecutionFields()
    ensures forall i | 0 <= i < |WISH_NAMES| :: !C.IsExecutionFieldKey(WISH_NAMES[i])
  {
    assert |WISH_NAMES[0]| == 10 && |WISH_NAMES[1]| == 11 && |WISH_NAMES[2]| == 9;
    assert |WISH_NAMES[3]| == 6 && |WISH_NAMES[4]| == 21;
    assert |"idempotency_key"| == 15 && |"confirmation_id"| == 15 && |"action_id"| == 9;
    assert Fold(WISH_NAMES[2])[0] == 't' && "action_id"[0] == 'a';
  }

  lemma {:induction false} WishHasNoExecutionField(ref: string)
    ensures C.ForbiddenKeys(Wish(ref)) == {}
  {
    WishNamesAreNoExecutionFields();
    var f := Wish(ref).fields;
    C.ForbiddenFieldsAreFound(f);
    forall k | 0 <= k < |f| ensures f[k].name == WISH_NAMES[k] && !HasKey(f[k].value, C.IsExecutionFieldKey) {
      if HasKey(f[k].value, C.IsExecutionFieldKey) {
        KeyInside(f[k].value, C.IsExecutionFieldKey);
      }
    }
  }

  lemma {:induction false} WishIsAcceptable(ref: string)
    requires 0 < |ref| <= 173
    ensures C.Acceptable(Wish(ref)) && C.RefOf(Wish(ref)) == ref
  {
    WishFields(ref);
    WishHasNoExecutionField(ref);
    C.AcceptableExactly(Wish(ref));
  }

  function TwoWishes(): Plan {
    Plan(RUN, Selected, true,
         PlanJson(true, true, Str("mock"), Some(Arr([Wish("a"), Wish("b")])), None, Null, None, None))
  }

  function Store(): System {
    System(map[PLAN := TwoWishes()], NOBODY)
  }

  function AskingOf(answer: WriteRequest -> Answer): Q.Request {
    Q.Request({RUN}, RUN, PLAN, "user", World({"mock"}, Unlimited, answer))
  }

  function Asking(): Q.Request {
    AskingOf(Down)
  }

  lemma {:induction false} TwoWishesAreConfirmed(actor: string, source: string)
    ensures C.Confirm(Store().rows, RUN, PLAN, actor, source).1.Ok?
  {
    var rows := Store().rows;
    var proposed := [Wish("a"), Wish("b")];
    WishIsAcceptable("a");
    WishIsAcceptable("b");
    assert C.Proposed(rows[PLAN].json) == proposed;
    assert C.AllAcceptable(proposed) && C.RefsDistinct(proposed);
    assert C.MayBeReviewed(rows, RUN, PLAN);
    C.ConfirmsExactly(rows, RUN, PLAN, actor, source);
  }

  lemma {:induction false} TwoWishesExecute(answer: WriteRequest -> Answer)
    ensures var s, r := Store(), AskingOf(answer);
            && Initial(s) && Sound(s) && Q.FirstRequest(s, r)
            && |Q.RequestedSaga(s, r).actions| == 2 && Q.RequestedSaga(s, r).provider == "mock"
            && W.Fresh(Q.RequestedSaga(s, r))
  {
    var s, r := Store(), AskingOf(answer);
    TwoWishesAreConfirmed(r.actor, "web-demo-api");
    assert Q.FirstRequest(s, r);
    ConfirmedQueue(TwoWishes().json, RUN, PLAN, r.actor, "web-demo-api");
    Q.FirstSagaIsFresh(s, r);
  }

  /** Two actions, and a provider that is down: the request executes, rolls back, and has called the provider once. */
  lemma {:induction false} FirstActionFails() returns (call: WriteRequest)
    ensures Initial(Store()) && Q.FirstRequest(Store(), Asking())
    ensures Q.ConfirmRun(Store(), Asking()) == Q.Outcome(System(Store().rows, Effects(map[], [call])), false)
    ensures !AtMostOnce(Q.ConfirmRun(Store(), Asking()).system.effects)
  {
    var s, r := Store(), Asking();
    TwoWishesExecute(Down);
    call := W.Request(Q.RequestedSaga(s, r), 0);
    Q.FirstActionRaises(s, r, "down");
  }

  /** The user tries again: the provider is asked for the same action, under the same key, a second time. */
  lemma {:induction false} SameActionIsRequestedTwice() returns (call: WriteRequest)
    ensures var first := Q.ConfirmRun(Store(), Asking()).system;
            Q.ConfirmRun(first, Asking()).system.effects.calls == [call, call]
  {
    call := FirstActionFails();
    var made := Q.RolledBackRequestRepeatsItsCalls(Store(), Asking());
    assert made == [call];
  }

  // ---- a plan that is selected again --------------------------------------------------------------

  lemma {:induction false} AllSucceed(saga: W.Saga, world: World, m: nat)
    requires W.Fresh(saga) && m <= |saga.actions| && saga.provider in world.providers && saga.answer == Up
    requires world.limits == Unlimited
    ensures W.StopsAt(saga, world, 0, m) == m
  {
    if m > 0 {
      AllSucceed(saga, world, m - 1);
    }
  }

  function Executing(): Op {
    Op.Execute(RUN, PLAN, World({"mock"}, Unlimited, Up))
  }

  lemma {:induction false} BothWishesSucceed()
    ensures var s, r := Store(), AskingOf(Up);
            && Q.ResultOf(s, r).Ok? && Q.ResultOf(s, r).value.planStatus == Executed
            && Step(Step(s, Q.Confirming(r)), Executing()).rows
               == E.Persisted(Step(s, Q.Confirming(r)).rows, PLAN, Q.ResultOf(s, r).value)
  {
    var s, r := Store(), AskingOf(Up);
    TwoWishesExecute(Up);
    AllSucceed(Q.RequestedSaga(s, r), r.world, 2);
    Q.FirstRequestExactly(s, r);
    NothingStops(s, r);
    Q.ExecutedIsPersisted(s, r);
  }

  lemma {:induction false} NothingStops(s: System, r: Q.Request)
    requires Q.Executes(s, r) && Q.ResultOf(s, r).Ok?
    requires Q.FirstStop(s, r) == |Q.RequestedSaga(s, r).actions| > 0
    ensures Q.ResultOf(s, r).value.planStatus == Executed
  {
    var saga := Q.RequestedSaga(s, r);
    Q.WalkOfRequest(s, r);
    Q.ExecutingIsWalking(s, r);
    Q.StopIsFirstFailure(saga, r.world, W.Final(saga, r.world, s.effects));
    ResultIsExecuted(Q.ResultOf(s, r).value);
  }

  lemma {:induction false} ResultIsExecuted(result: ExecutionResult)
    requires R.FromWorkflow(result) && result.actionResults != []
    requires E.FirstFailure(result.actionResults) == |result.actionResults|
    ensures result.planStatus == Executed
  {
    R.CountsOfShape(result.actionResults);
    R.SummaryShape(result.actionResults);
  }

  lemma {:induction false} RunOfThree(s: System, a: Op, b: Op, c: Op)
    ensures Run(s, [a, b]) == Step(Step(s, a), b)
    ensures Run(s, [a, b, c]) == Step(Run(s, [a, b]), c)
  {
    assert [a][..0] == [] && [a, b][..1] == [a] && [a, b, c][..2] == [a, b];
    assert Run(s, [a]) == Step(s, a);
  }

  lemma {:induction false} SelectedAgain(s: System)
    requires PLAN in s.rows && s.rows[PLAN].runId == RUN
    ensures var after := Step(s, Select(RUN, PLAN));
            PLAN in after.rows && after.rows[PLAN].status == Selected && after.effects == s.effects
  {
  }

  /** Confirmed and executed, and then selected once more: the plan has left the status that was to be final. */
  lemma {:induction false} ExecutedPlanIsReopened()
    ensures var confirm, select := Q.Confirming(AskingOf(Up)), Select(RUN, PLAN);
            var executed, reopened :=
              Run(Store(), [confirm, Executing()]), Run(Store(), [confirm, Executing(), select]);
            && PLAN in executed.rows && executed.rows[PLAN].status == Executed
            && PLAN in reopened.rows && reopened.rows[PLAN].status == Selected
            && reopened.effects == executed.effects
  {
    var confirm, select := Q.Confirming(AskingOf(Up)), Select(RUN, PLAN);
    BothWishesSucceed();
    RunOfThree(Store(), confirm, Executing(), select);
    StatusMoves(Store(), confirm, PLAN);
    SelectedAgain(Run(Store(), [confirm, Executing()]));
  }

  // ---- a resumed execution ----------------------------------------------------------------------

  const TABLE := Action("a", 1, "reserve_restaurant", "table", Obj([]), "key")
  const SECOND_TABLE := Action("b", 2, "reserve_restaurant", "garden", Obj([]), "key2")

  function OneAction(): W.Saga {
    W.Saga(RUN, "mock", [TABLE], Up, NOBODY)
  }

  function TwoTables(): W.Saga {
    W.Saga(RUN, "mock", [TABLE, SECOND_TABLE], Up, NOBODY)
  }

  /** An attempt that stops after its first action. */
  function AfterTheCall(): W.Attempt {
    W.Attempt(World({"mock"}, Unlimited, Up), W.Crash(1, None))
  }

  lemma {:induction false} TablesAreKeyed(s: W.Saga)
    requires s == OneAction() || s == TwoTables()
    ensures W.Keyed(s)
  {
    assert |"key"| == 3 && |"key2"| == 4;
  }

  lemma {:induction false} SettlesTheFirst(s: W.Saga)
    requires s == OneAction() || s == TwoTables()
    ensures var attempts := [AfterTheCall()];
            && W.Keyed(s) && !K.CutShort(s, attempts) && W.AfterAttempts(s, attempts) == W.Upto(s, 1)
  {
    var attempts := [AfterTheCall()];
    TablesAreKeyed(s);
    K.AttemptsProgress(s, attempts);
    assert attempts[..0] == [];
    assert W.StopsAt(s, AfterTheCall().world, 0, 1) == 1;
    assert K.ProgressAfter(s, attempts) == W.Settled(1);
  }

  /**
   * Settled, interrupted, and resumed when the window is used up: the resumed execution succeeds, one run fails.
   */
  lemma {:induction false} LimitedAfterSettling()
    ensures var s, world := OneAction(), World({"mock"}, FixedWindow(map["mock" := 3]), Up);
            var e := W.AfterAttempts(s, [AfterTheCall()]);
            && W.Keyed(s) && !K.CutShort(s, [AfterTheCall()]) && !K.RefusedAlike(s, world, e)
            && W.Outcomes(W.Final(s, world, e).results) != W.Outcomes(W.Final(s, world, s.start).results)
            && !W.Final(s, world, e).priorFailure && W.Final(s, world, s.start).priorFailure
  {
    var s, world := OneAction(), World({"mock"}, FixedWindow(map["mock" := 3]), Up);
    SettlesTheFirst(s);
    assert W.StopsAt(s, world, 0, 1) == 0 && W.StopsAt(s, world, 1, 1) == 1;
    K.AlikeFromSettled(s, world, 1);
    K.CrashResumeRefinesOneRun(s, [AfterTheCall()], world);
    K.ResumedOutcomes(s, world, 0);
    K.ResumedOutcomes(s, world, 1);
  }

  lemma {:induction false} LastUnitStops(s: W.Saga, world: World)
    requires s == TwoTables() && world == World({"mock"}, FixedWindow(map["mock" := 2]), Up)
    ensures W.StopsAt(s, world, 1, 2) == 2 && W.StopsAt(s, world, 0, 2) == 1
    ensures !W.Refuses(s, world, 0, 0) && W.Refuses(s, world, 0, 1) && !W.Refuses(s, world, 1, 1)
  {
    assert W.Asks(s, 0, 1) == [W.Request(s, 0)] && W.Asks(s, 1, 1) == [] && W.Asks(s, 0, 0) == [];
    assert [W.Request(s, 0)][..0] == [];
    assert CountAsked([W.Request(s, 0)], "mock", "reserve_restaurant") == 1;
    assert !W.Refuses(s, world, 0, 0) && W.Refuses(s, world, 0, 1) && !W.Refuses(s, world, 1, 1);
    assert W.StopsAt(s, world, 1, 1) == 1 && W.StopsAt(s, world, 0, 1) == 1;
  }

  /**
   * Two reservations, the first settled by an earlier attempt, and one unit left in the window. No settled action would
   * be refused; still the resumed execution spends the unit on the second and succeeds, while one run spends it on the
   * first.
   */
  lemma {:induction false} LastUnitOfTheWindow()
    ensures var s, world := TwoTables(), World({"mock"}, FixedWindow(map["mock" := 2]), Up);
            var e := W.AfterAttempts(s, [AfterTheCall()]);
            && NeverRelaxes(world) && !K.CutShort(s, [AfterTheCall()])
            && !K.RefusesSettledAction(s, world, e) && K.OnlyOnceIsRefused(s, world, e)
            && W.Outcomes(W.Final(s, world, e).results) != W.Outcomes(W.Final(s, world, s.start).results)
            && !W.Final(s, world, e).priorFailure && W.Final(s, world, s.start).priorFailure
  {
    var s, world := TwoTables(), World({"mock"}, FixedWindow(map["mock" := 2]), Up);
    FixedWindowNeverRelaxes(world, map["mock" := 2]);
    SettlesTheFirst(s);
    LastUnitStops(s, world);
    K.RefusesExactly(s, world, 1);
    K.StopsFromSettled(s, world, 0, 2);
    K.RefusedFromSettled(s, world, 0, 1);
    K.RefusedFromSettled(s, world, 1, 1);
    K.AlikeUnderFixedWindow(s, [AfterTheCall()], world);
    K.CrashResumeRefinesOneRun(s, [AfterTheCall()], world);
    K.ResumedOutcomes(s, world, 0);
    K.ResumedOutcomes(s, world, 1);
  }

  /** An attempt that dies inside the call of its one action, after the provider was reached. */
  function InsideTheCall(): W.Attempt {
    W.Attempt(World({"mock"}, Unlimited, Up), W.Crash(0, Some(true)))
  }

  /** The provider was called once, and no later attempt, in whatever world, can tell or go on. */
  lemma {:induction false} CutShortForEver(world: World)
    requires world.answer == Up
    ensures var s := OneAction();
            var e := W.AfterAttempts(s, [InsideTheCall()]);
            && K.CutShort(s, [InsideTheCall()]) && K.HasPendingRow(s, e) && e.calls == [W.Request(s, 0)]
            && W.Final(s, world, e).raised && W.Final(s, world, e).effects == e
  {
    var s, attempts := OneAction(), [InsideTheCall()];
    assert attempts[..0] == [];
    assert W.Upto(s, 0) == s.start == W.AfterAttempts(s, []);
    K.InterruptedSettled(s, 0, InsideTheCall());
    assert K.CallsAt(s, InsideTheCall(), 0);
    assert W.DiesInsideCall(s, attempts[0], W.AfterAttempts(s, attempts[..0]));
    K.ResumeIsBrokenOffExactly(s, attempts, world);
    assert W.AfterAttempts(s, attempts) == CutOff(s.start, W.Request(s, 0), true);
  }
}
