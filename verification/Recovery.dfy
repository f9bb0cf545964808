/** Recovery after a blocked review: the policy's decision, how it is routed, and the loop they drive. */
module Recovery {
  import opened Wrappers
  import opened Counting

  datatype Pair = Pair(activity: string, dining: string)

  datatype Draft = Draft(id: string, pair: Pair)

  /** A review error; `availability` is the availability status among its details. */
  datatype Check = Check(name: string, draftId: Option<string>, availability: Option<string>)

  datatype ReviewedDraft = ReviewedDraft(draftId: string, safe: bool)

  datatype Review = Review(safe: bool, errors: seq<Check>, reviewed: seq<ReviewedDraft>)

  /** What a decision asks for; an attempt without a decision is recorded as `NoDecision`. */
  datatype Action = NoAction | Retry | ReplaceCandidate | ExpandSearch | AskUser | StopSafely | NoDecision

  datatype Route = FinalReview | GenerateQueries | ExecuteSearches | LogicalPlanner | AwaitingClarification
    | FailedRoute

  datatype Decision = Decision(passed: bool, errorType: Option<string>, action: Action, routeTo: Option<Route>,
      budget: int)

  /** What the policy knows beyond the review: past actions, excluded pairs, the expansion level, route failures. */
  datatype Context = Context(attempted: seq<Action>, excluded: seq<Pair>, level: int, routeFailures: seq<string>)

  /** The proposed drafts, and the codes of the reasons why others failed. */
  datatype Drafts = Drafts(drafts: seq<Draft>, failedReasons: seq<string>)

  const SAFETY_BOUNDARY_FAILURES: set<string> :=
    {"run_id_consistency", "pre_confirmation_no_actions", "actions_require_confirmation",
     "actions_reference_draft_objects", "actions_have_no_execution_fields", "sensitive_payload_scan"}

  // ---- the guards ----------------------------------------------------------------------------------

  function PrimaryError(review: Review): string {
    if review.errors != [] then review.errors[0].name else "plan_invalid"
  }

  predicate RouteWideFailure(review: Review, drafts: Drafts, c: Context) {
    PrimaryError(review) == "draft_exists" && drafts.drafts == [] &&
    ("missing_usable_route" in drafts.failedReasons || "route_infeasible" in c.routeFailures)
  }

  /** The verdict on the draft: its first review, or else whether an error names it. */
  predicate DraftBlocked(id: string, reviewed: seq<ReviewedDraft>, errors: seq<Check>) {
    if reviewed == [] then exists i | 0 <= i < |errors| :: errors[i].draftId == Some(id)
    else if reviewed[0].draftId == id then !reviewed[0].safe
    else DraftBlocked(id, reviewed[1..], errors)
  }

  predicate FirstDraftBlocked(review: Review, drafts: Drafts) {
    drafts.drafts != [] && DraftBlocked(drafts.drafts[0].id, review.reviewed, review.errors)
  }

  predicate CanReplace(review: Review, drafts: Drafts, c: Context) {
    |drafts.drafts| >= 2 && FirstDraftBlocked(review, drafts) && drafts.drafts[0].pair !in c.excluded
  }

  predicate CanExpand(review: Review, drafts: Drafts, c: Context) {
    c.level == 0 && (drafts.drafts == [] || FirstDraftBlocked(review, drafts))
  }

  /** The availability status of the first dining error; an empty one counts as none. */
  function DiningBlock(errors: seq<Check>): Option<string> {
    if errors == [] then None
    else if errors[0].name != "dining_availability" then DiningBlock(errors[1..])
    else if errors[0].availability == Some("") then None
    else errors[0].availability
  }

  predicate TableUnavailable(review: Review) {
    DiningBlock(review.errors) == Some("table_unavailable")
      || DiningBlock(review.errors) == Some("table_and_queue_unavailable")
  }

  /** `decide_recovery_action`. */
  function Decide(review: Review, drafts: Drafts, c: Context): Decision {
    var error := Some(PrimaryError(review));
    var stop := Decision(false, error, StopSafely, None, 0);
    if review.safe then Decision(true, None, NoAction, None, 0)
    else if PrimaryError(review) in SAFETY_BOUNDARY_FAILURES then stop
    else if RouteWideFailure(review, drafts, c) then stop
    else if DiningBlock(review.errors) == Some("queue_closed") then stop
    else if TableUnavailable(review) && ReplaceCandidate in c.attempted then stop
    else if CanReplace(review, drafts, c) then Decision(false, error, ReplaceCandidate, Some(LogicalPlanner), 1)
    else if CanExpand(review, drafts, c) then Decision(false, error, ExpandSearch, Some(GenerateQueries), 1)
    else if PrimaryError(review) == "draft_exists" || FirstDraftBlocked(review, drafts)
      then Decision(false, error, AskUser, None, 0)
    else stop
  }

  // ---- routing ---------------------------------------------------------------------------------------

  datatype AttemptStatus = Routed | Stopped | AwaitingUser

  datatype Attempt = Attempt(index: nat, action: Action, routeTo: Option<Route>, budgetBefore: int, budgetAfter: int,
      status: AttemptStatus)

  datatype StopReason = RecoveryStopped | LimitExceeded | BudgetExhausted | UnsupportedRoute | MissingDecision

  datatype Routing = Routing(route: Route, attempt: Option<Attempt>, stopReason: Option<StopReason>)

  function DefaultRoute(action: Action): Option<Route> {
    match action
    case Retry => Some(ExecuteSearches)
    case ExpandSearch => Some(GenerateQueries)
    case ReplaceCandidate => Some(LogicalPlanner)
    case _ => None
  }

  function StopAttempt(d: Decision, index: nat, before: int, after: int, reason: StopReason): Routing {
    Routing(FailedRoute, Some(Attempt(index, d.action, d.routeTo, before, after, Stopped)), Some(reason))
  }

  /** `resolve_recovery_route`. */
  function Resolve(decision: Option<Decision>, attemptCount: nat, maxAttempts: int): Routing {
    if decision.None? then
      Routing(FailedRoute, Some(Attempt(attemptCount + 1, NoDecision, None, 0, 0, Stopped)), Some(MissingDecision))
    else ResolveDecision(decision.value, attemptCount, maxAttempts)
  }

  function ResolveDecision(d: Decision, attemptCount: nat, maxAttempts: int): Routing {
    var index := attemptCount + 1;
    var limit := if maxAttempts > 0 then maxAttempts else 0;
    var budget := if d.budget > 0 then d.budget else 0;
    if d.passed || d.action.NoAction? then Routing(FinalReview, None, None)
    else if d.action.AskUser? then
      Routing(AwaitingClarification,
              Some(Attempt(index, d.action, Some(AwaitingClarification), budget, budget, AwaitingUser)), None)
    else if d.action.StopSafely? then StopAttempt(d, index, budget, budget, RecoveryStopped)
    else if attemptCount >= limit then StopAttempt(d, index, budget, budget, LimitExceeded)
    else if budget <= 0 then StopAttempt(d, index, budget, 0, BudgetExhausted)
    else
      var route := if d.routeTo.Some? then d.routeTo else DefaultRoute(d.action);
      if route.None? || route != DefaultRoute(d.action) then StopAttempt(d, index, budget, budget, UnsupportedRoute)
      else Routing(route.value, Some(Attempt(index, d.action, route, budget, budget - 1, Routed)), None)
  }

  // ---- the loop ----------------------------------------------------------------------------------------

  datatype Phase = Running | Presentable | Failed | Waiting

  datatype State = State(phase: Phase, attempts: seq<Attempt>, maxAttempts: int, level: int, excluded: seq<Pair>)

  /** What the workflow finds in one round: the drafts before filtering, their review, and the route failures. */
  datatype Round = Round(review: Review, proposed: Drafts, routeFailures: seq<string>)

  /** `_filter_excluded_drafts`. */
  function Filtered(drafts: seq<Draft>, excluded: seq<Pair>): seq<Draft> {
    if drafts == [] then []
    else
      var last := |drafts| - 1;
      Filtered(drafts[..last], excluded) + if drafts[last].pair in excluded then [] else [drafts[last]]
  }

  function ActionsOf(attempts: seq<Attempt>): seq<Action> {
    seq(|attempts|, i requires 0 <= i < |attempts| => attempts[i].action)
  }

  function ContextOf(s: State, routeFailures: seq<string>): Context {
    Context(ActionsOf(s.attempts), s.excluded, s.level, routeFailures)
  }

  function DraftsOf(s: State, r: Round): Drafts {
    r.proposed.(drafts := Filtered(r.proposed.drafts, s.excluded))
  }

  /** `apply_recovery`; a maximum of zero counts as one. */
  function ApplyRecovery(s: State, drafts: Drafts, routing: Routing): State {
    var next := if routing.attempt.Some? then s.(attempts := s.attempts + [routing.attempt.value]) else s;
    match routing.route
    case GenerateQueries => next.(level := if s.level + 1 < 1 then s.level + 1 else 1)
    case ExecuteSearches => next
    case LogicalPlanner =>
      if drafts.drafts == [] then next.(phase := Failed)
      else if drafts.drafts[0].pair in s.excluded then next
      else next.(excluded := s.excluded + [drafts.drafts[0].pair])
    case AwaitingClarification => next.(phase := Waiting)
    case FinalReview => next.(phase := Presentable)
    case FailedRoute => next.(phase := Failed)
  }

  function Limit(s: State): int {
    if s.maxAttempts == 0 then 1 else s.maxAttempts
  }

  function DecisionIn(s: State, r: Round): Decision {
    Decide(r.review, DraftsOf(s, r), ContextOf(s, r.routeFailures))
  }

  /** One round: filter, decide, route, apply. A run that has ended stays as it is. */
  function Step(s: State, r: Round): State {
    if !s.phase.Running? then s
    else ApplyRecovery(s, DraftsOf(s, r), Resolve(Some(DecisionIn(s, r)), |s.attempts|, Limit(s)))
  }

  function Run(s: State, rounds: seq<Round>): State {
    if rounds == [] then s else Step(Run(s, rounds[..|rounds| - 1]), rounds[|rounds| - 1])
  }

  function Start(maxAttempts: int): State {
    State(Running, [], maxAttempts, 0, [])
  }

  // ---- what routing guarantees ---------------------------------------------------------------------------

  /** The actions that lead back into the workflow. */
  predicate GoesBack(action: Action) {
    action.Retry? || action.ReplaceCandidate? || action.ExpandSearch?
  }

  predicate IsRouted(routing: Routing) {
    routing.attempt.Some? && routing.attempt.value.status.Routed?
  }

  /**
   * Whatever the decision, it is routed exactly when it goes back, attempts and budget are left, and it names no route
   * but its own; then it takes that route and uses up one unit of budget. Everything else ends the loop: in the final
   * review when it passed, with the user when it asks, and in failure with a reason otherwise.
   */
  lemma {:induction false} RoutedExactly(decision: Option<Decision>, attemptCount: nat, maxAttempts: int)
    ensures var routing := Resolve(decision, attemptCount, maxAttempts);
            && (IsRouted(routing) <==>
                  && decision.Some? && !decision.value.passed && GoesBack(decision.value.action)
                  && attemptCount < maxAttempts && decision.value.budget > 0
                  && (decision.value.routeTo.None? || decision.value.routeTo == DefaultRoute(decision.value.action)))
            && (IsRouted(routing) ==>
                  && Some(routing.route) == DefaultRoute(decision.value.action)
                  && routing.attempt.value.budgetAfter == decision.value.budget - 1)
            && (routing.route.FinalReview? <==>
                decision.Some? && (decision.value.passed || decision.value.action.NoAction?))
            && (routing.route.FinalReview? <==> routing.attempt.None?)
            && (routing.attempt.Some? ==> routing.attempt.value.index == attemptCount + 1)
            && (routing.route.FailedRoute? <==> routing.stopReason.Some?)
  {
    if decision.Some? && GoesBack(decision.value.action) {
      assert DefaultRoute(decision.value.action).Some?;
    }
  }

  /** The route of an action that goes back, and of no other. */
  ghost predicate LeadsTo(action: Action, route: Route) {
    || (action.Retry? && route.ExecuteSearches?)
    || (action.ExpandSearch? && route.GenerateQueries?)
    || (action.ReplaceCandidate? && route.LogicalPlanner?)
  }

  /** It neither ends in the review, nor asks, nor stops by itself. */
  ghost predicate Tries(d: Decision) {
    !d.passed && !d.action.NoAction? && !d.action.AskUser? && !d.action.StopSafely?
  }

  /** It names no route, or its own, and has one. */
  ghost predicate Supported(d: Decision) {
    exists route :: LeadsTo(d.action, route) && (d.routeTo.None? || d.routeTo == Some(route))
  }

  ghost function NonNegative(n: int): nat {
    if n < 0 then 0 else n
  }

  /** Why the loop ends in failure, and what is on record about every attempt. */
  lemma {:induction false} StoppedExactly(decision: Option<Decision>, attemptCount: nat, maxAttempts: int)
    ensures var routing := Resolve(decision, attemptCount, maxAttempts);
            var tries := decision.Some? && Tries(decision.value);
            && (routing.stopReason == Some(MissingDecision) <==> decision.None?)
            && (routing.stopReason == Some(RecoveryStopped) <==>
                decision.Some? && !decision.value.passed && decision.value.action.StopSafely?)
            && (routing.stopReason == Some(LimitExceeded) <==> tries && attemptCount >= maxAttempts)
            && (routing.stopReason == Some(BudgetExhausted) <==>
                tries && attemptCount < maxAttempts && decision.value.budget <= 0)
            && (routing.stopReason == Some(UnsupportedRoute) <==>
                tries && attemptCount < maxAttempts && decision.value.budget > 0 && !Supported(decision.value))
            && (routing.route.AwaitingClarification? <==>
                decision.Some? && !decision.value.passed && decision.value.action.AskUser?)
            && (routing.route.FailedRoute? <==> routing.stopReason.Some?)
            && (IsRouted(routing) ==> LeadsTo(decision.value.action, routing.route))
            && (routing.attempt.Some? ==> Records(routing.attempt.value, decision, routing))
  {
    if decision.Some? {
      var action := decision.value.action;
      assert forall route :: LeadsTo(action, route) <==> DefaultRoute(action) == Some(route);
    }
  }

  ghost predicate Records(a: Attempt, decision: Option<Decision>, routing: Routing) {
    && a.action == (if decision.Some? then decision.value.action else NoDecision)
    && a.budgetBefore == (if decision.Some? then NonNegative(decision.value.budget) else 0)
    && (a.status.AwaitingUser? <==> routing.route.AwaitingClarification?)
    && (a.status.Stopped? <==> routing.route.FailedRoute?)
    && a.budgetAfter == (if a.status.Routed? then a.budgetBefore - 1
                         else if routing.stopReason == Some(BudgetExhausted) then 0 else a.budgetBefore)
    && a.routeTo == (if a.status.Stopped? then if decision.Some? then decision.value.routeTo else None
                     else Some(routing.route))
  }

  // ---- which action is chosen ----------------------------------------------------------------------------

  ghost predicate FirstErrorIs(review: Review, name: string) {
    review.errors != [] && review.errors[0].name == name
  }

  /** The first error about dining availability reports that status. */
  ghost predicate DiningReports(errors: seq<Check>, status: string) {
    exists i | 0 <= i < |errors| ::
      && errors[i].name == "dining_availability" && errors[i].availability == Some(status)
      && forall j | 0 <= j < i :: errors[j].name != "dining_availability"
  }

  lemma {:induction false} DiningExactly(errors: seq<Check>, status: string)
    requires status != ""
    ensures DiningBlock(errors) == Some(status) <==> DiningReports(errors, status)
  {
    if errors != [] && errors[0].name != "dining_availability" {
      var rest := errors[1..];
      DiningExactly(rest, status);
      if DiningReports(rest, status) {
        var i :| 0 <= i < |rest| && rest[i].name == "dining_availability" && rest[i].availability == Some(status)
          && forall j | 0 <= j < i :: rest[j].name != "dining_availability";
        forall j | 0 <= j < i + 1 ensures errors[j].name != "dining_availability" {
          assert j > 0 ==> errors[j] == rest[j - 1];
        }
        assert errors[i + 1] == rest[i];
      }
      if DiningReports(errors, status) {
        var i :| 0 <= i < |errors| && errors[i].name == "dining_availability" && errors[i].availability == Some(status)
          && forall j | 0 <= j < i :: errors[j].name != "dining_availability";
        assert rest[i - 1] == errors[i];
        assert forall j | 0 <= j < i - 1 :: rest[j] == errors[j + 1];
      }
    }
  }

  ghost predicate IsFirstVerdict(reviewed: seq<ReviewedDraft>, id: string, i: int) {
    && 0 <= i < |reviewed| && reviewed[i].draftId == id
    && forall j | 0 <= j < i :: reviewed[j].draftId != id
  }

  /** Blocked by the first verdict on the draft, or, when there is none, by an error that names it. */
  ghost predicate IsBlocked(id: string, reviewed: seq<ReviewedDraft>, errors: seq<Check>) {
    || (exists i :: IsFirstVerdict(reviewed, id, i) && !reviewed[i].safe)
    || ((forall r | r in reviewed :: r.draftId != id) && exists e | e in errors :: e.draftId == Some(id))
  }

  lemma {:induction false} VerdictBehind(reviewed: seq<ReviewedDraft>, id: string)
    requires reviewed != [] && reviewed[0].draftId != id
    ensures forall i :: IsFirstVerdict(reviewed, id, i) <==> i > 0 && IsFirstVerdict(reviewed[1..], id, i - 1)
    ensures (forall r | r in reviewed :: r.draftId != id) <==> forall r | r in reviewed[1..] :: r.draftId != id
  {
    var rest := reviewed[1..];
    forall i ensures IsFirstVerdict(reviewed, id, i) <==> i > 0 && IsFirstVerdict(rest, id, i - 1) {
      if i > 0 && IsFirstVerdict(rest, id, i - 1) {
        assert forall j | 0 < j < i :: reviewed[j] == rest[j - 1];
      }
      if IsFirstVerdict(reviewed, id, i) {
        assert forall j | 0 <= j < i - 1 :: rest[j] == reviewed[j + 1];
      }
    }
    assert reviewed == [reviewed[0]] + rest;
  }

  lemma {:induction false} BlockedExactly(id: string, reviewed: seq<ReviewedDraft>, errors: seq<Check>)
    ensures DraftBlocked(id, reviewed, errors) <==> IsBlocked(id, reviewed, errors)
  {
    if reviewed == [] {
      assert DraftBlocked(id, reviewed, errors) <==> exists e | e in errors :: e.draftId == Some(id);
    } else if reviewed[0].draftId == id {
      assert IsFirstVerdict(reviewed, id, 0) && reviewed[0] in reviewed;
      assert forall i :: IsFirstVerdict(reviewed, id, i) ==> i == 0;
    } else {
      BlockedExactly(id, reviewed[1..], errors);
      VerdictBehind(reviewed, id);
      BlockedBehind(id, reviewed, errors);
    }
  }

  lemma {:induction false} BlockedBehind(id: string, reviewed: seq<ReviewedDraft>, errors: seq<Check>)
    requires reviewed != []
    requires forall i :: IsFirstVerdict(reviewed, id, i) <==> i > 0 && IsFirstVerdict(reviewed[1..], id, i - 1)
    requires (forall r | r in reviewed :: r.draftId != id) <==> forall r | r in reviewed[1..] :: r.draftId != id
    ensures IsBlocked(id, reviewed, errors) <==> IsBlocked(id, reviewed[1..], errors)
  {
    if i :| IsFirstVerdict(reviewed, id, i) && !reviewed[i].safe {
      assert IsFirstVerdict(reviewed[1..], id, i - 1);
    }
    if i :| IsFirstVerdict(reviewed[1..], id, i) && !reviewed[1..][i].safe {
      assert IsFirstVerdict(reviewed, id, i + 1);
    }
  }

  ghost predicate ReportsNoTable(review: Review) {
    DiningReports(review.errors, "table_unavailable") || DiningReports(review.errors, "table_and_queue_unavailable")
  }

  /** What stops safely: a safety boundary, no usable route, a closed queue, a table that a replacement did not free. */
  ghost predicate MustStop(review: Review, drafts: Drafts, c: Context) {
    || (review.errors != [] && review.errors[0].name in {
          "run_id_consistency", "pre_confirmation_no_actions", "actions_require_confirmation",
          "actions_reference_draft_objects", "actions_have_no_execution_fields", "sensitive_payload_scan"})
    || (FirstErrorIs(review, "draft_exists") && drafts.drafts == []
        && ("missing_usable_route" in drafts.failedReasons || "route_infeasible" in c.routeFailures))
    || DiningReports(review.errors, "queue_closed")
    || (ReplaceCandidate in c.attempted && ReportsNoTable(review))
  }

  ghost predicate FirstIsBlocked(review: Review, drafts: Drafts) {
    drafts.drafts != [] && IsBlocked(drafts.drafts[0].id, review.reviewed, review.errors)
  }

  /** There is another draft, the first is blocked, and its pair was not excluded before. */
  ghost predicate Replaceable(review: Review, drafts: Drafts, c: Context) {
    |drafts.drafts| >= 2 && FirstIsBlocked(review, drafts) && drafts.drafts[0].pair !in c.excluded
  }

  /** The search was not expanded yet, and there is no draft or the first is blocked. */
  ghost predicate Expandable(review: Review, drafts: Drafts, c: Context) {
    c.level == 0 && (drafts.drafts == [] || FirstIsBlocked(review, drafts))
  }

  ghost predicate Negotiable(review: Review, drafts: Drafts) {
    FirstErrorIs(review, "draft_exists") || FirstIsBlocked(review, drafts)
  }

  lemma {:induction false} GuardsExactly(review: Review, drafts: Drafts, c: Context)
    ensures FirstDraftBlocked(review, drafts) <==> FirstIsBlocked(review, drafts)
    ensures CanReplace(review, drafts, c) <==> Replaceable(review, drafts, c)
    ensures CanExpand(review, drafts, c) <==> Expandable(review, drafts, c)
    ensures MustStop(review, drafts, c) <==>
            || PrimaryError(review) in SAFETY_BOUNDARY_FAILURES || RouteWideFailure(review, drafts, c)
            || DiningBlock(review.errors) == Some("queue_closed")
            || (TableUnavailable(review) && ReplaceCandidate in c.attempted)
  {
    if drafts.drafts != [] {
      BlockedExactly(drafts.drafts[0].id, review.reviewed, review.errors);
    }
    DiningExactly(review.errors, "queue_closed");
    DiningExactly(review.errors, "table_unavailable");
    DiningExactly(review.errors, "table_and_queue_unavailable");
    NoErrorIsNoBoundary();
  }

  lemma {:induction false} NoErrorIsNoBoundary()
    ensures "plan_invalid" !in SAFETY_BOUNDARY_FAILURES && "plan_invalid" != "draft_exists"
  {
    assert |"plan_invalid"| == 12 && |"draft_exists"| == 12 && "draft_exists"[0] == 'd';
    assert |"run_id_consistency"| == 18 && |"pre_confirmation_no_actions"| == 27;
    assert |"actions_require_confirmation"| == 28 && |"actions_reference_draft_objects"| == 31;
    assert |"actions_have_no_execution_fields"| == 32 && |"sensitive_payload_scan"| == 22;
  }

  /**
   * Which action is chosen, on the review, the drafts and the context: pass what is safe; otherwise, unless one must
   * stop, replace the first draft if possible, or else expand the search, or else ask; stop when none is left.
   */
  lemma {:induction false} ChosenExactly(review: Review, drafts: Drafts, c: Context)
    ensures var action := Decide(review, drafts, c).action;
            var open := !review.safe && !MustStop(review, drafts, c);
            var replace, expand := Replaceable(review, drafts, c), Expandable(review, drafts, c);
            && (action.NoAction? <==> review.safe)
            && (action.ReplaceCandidate? <==> open && replace)
            && (action.ExpandSearch? <==> open && !replace && expand)
            && (action.AskUser? <==> open && !replace && !expand && Negotiable(review, drafts))
            && (action.StopSafely? <==>
                !review.safe && (MustStop(review, drafts, c) || (!replace && !expand && !Negotiable(review, drafts))))
  {
    GuardsExactly(review, drafts, c);
    NoErrorIsNoBoundary();
  }

  /** What else a decision says: the first error, where to go on, and one more attempt for what can be tried again. */
  lemma {:induction false} DecisionTells(review: Review, drafts: Drafts, c: Context)
    ensures var d := Decide(review, drafts, c);
            && d.passed == review.safe
            && d.errorType == (if review.safe then None
                               else Some(if review.errors == [] then "plan_invalid" else review.errors[0].name))
            && d.routeTo == (match d.action
                             case ReplaceCandidate => Some(LogicalPlanner)
                             case ExpandSearch => Some(GenerateQueries)
                             case _ => None)
            && d.budget == (if d.action.ReplaceCandidate? || d.action.ExpandSearch? then 1 else 0)
  {
  }

  // ---- what the policy guarantees -----------------------------------------------------------------------

  predicate MayRetry(action: Action) {
    action.ReplaceCandidate? || action.ExpandSearch?
  }

  /**
   * A budget is granted exactly to the two actions that go round again, and each is granted only while it can change
   * something.
   */
  lemma {:induction false} BudgetExactly(review: Review, drafts: Drafts, c: Context)
    ensures var d := Decide(review, drafts, c);
            && (d.budget == 1 <==> MayRetry(d.action)) && (d.budget == 0 <==> !MayRetry(d.action))
            && !d.action.Retry? && !d.action.NoDecision?
            && (d.passed <==> review.safe) && (d.action.NoAction? <==> review.safe)
            && (d.action.ReplaceCandidate? ==> |drafts.drafts| >= 2 && drafts.drafts[0].pair !in c.excluded)
            && (d.action.ExpandSearch? ==> c.level == 0)
            && (MayRetry(d.action) ==> d.routeTo == DefaultRoute(d.action))
  {
  }

  /** Once every pair in play is excluded and the search was expanded, only passing, asking and stopping are left. */
  lemma {:induction false} ExhaustedPolicyEnds(review: Review, drafts: Drafts, c: Context)
    requires c.level != 0
    requires forall i | 0 <= i < |drafts.drafts| :: drafts.drafts[i].pair in c.excluded
    ensures var action := Decide(review, drafts, c).action;
            action.NoAction? || action.AskUser? || action.StopSafely?
  {
  }

  // ---- what the loop guarantees --------------------------------------------------------------------------

  lemma {:induction false} FilteredExactly(drafts: seq<Draft>, excluded: seq<Pair>)
    ensures forall d :: d in Filtered(drafts, excluded) <==> d in drafts && d.pair !in excluded
  {
    if drafts != [] {
      var last := |drafts| - 1;
      assert drafts == drafts[..last] + [drafts[last]];
      FilteredExactly(drafts[..last], excluded);
    }
  }

  ghost function NotExcluded(excluded: seq<Pair>): Draft -> bool {
    (d: Draft) => d.pair !in excluded
  }

  /** The drafts that are left, in their order, by their positions among all of them. */
  lemma {:induction false} FilteredInOrder(drafts: seq<Draft>, excluded: seq<Pair>) returns (at: seq<nat>)
    ensures KeptAt(drafts, NotExcluded(excluded), Filtered(drafts, excluded), at)
  {
    at := [];
    if drafts != [] {
      var last := |drafts| - 1;
      at := FilteredInOrder(drafts[..last], excluded);
      OneMoreKept(drafts[..last], drafts[last], NotExcluded(excluded), Filtered(drafts[..last], excluded), at);
      assert drafts == drafts[..last] + [drafts[last]];
      if drafts[last].pair !in excluded {
        at := at + [last];
      } else {
        assert Filtered(drafts[..last], excluded) + [] == Filtered(drafts[..last], excluded);
      }
    }
  }

  function RoutedCount(attempts: seq<Attempt>): nat {
    if attempts == [] then 0
    else RoutedCount(attempts[..|attempts| - 1]) + if attempts[|attempts| - 1].status.Routed? then 1 else 0
  }

  ghost predicate NoDuplicates(pairs: seq<Pair>) {
    forall i, j | 0 <= i < j < |pairs| :: pairs[i] != pairs[j]
  }

  /**
   * What every run keeps: each routed attempt has excluded one more pair or used up the one expansion; a run that
   * still goes on has only routed attempts, no more of them than allowed; replacements attempted are on record.
   */
  ghost predicate Sound(s: State) {
    && 0 <= s.level <= 1
    && NoDuplicates(s.excluded)
    && RoutedCount(s.attempts) == |s.excluded| + s.level
    && RoutedCount(s.attempts) <= (if Limit(s) > 0 then Limit(s) else 0)
    && |s.attempts| <= RoutedCount(s.attempts) + 1
    && (s.phase.Running? || s.phase.Presentable? ==> |s.attempts| == RoutedCount(s.attempts))
    && (s.excluded != [] <==> ReplacementRouted(s.attempts))
  }

  /** What a round does to a run that goes on, given its decision and the first draft it was decided for. */
  ghost predicate Moved(s: State, d: Decision, drafts: seq<Draft>, safe: bool, next: State) {
    && next.maxAttempts == s.maxAttempts
    && (next.phase.Running? <==> MayRetry(d.action) && |s.attempts| < Limit(s))
    && (next.phase.Presentable? <==> safe)
    && (if safe then next.attempts == s.attempts
        else
          && |next.attempts| == |s.attempts| + 1 && next.attempts[..|s.attempts|] == s.attempts
          && next.attempts[|s.attempts|].action == d.action
          && (next.attempts[|s.attempts|].status.Routed? <==> next.phase.Running?))
    && (if next.phase.Running? && d.action.ExpandSearch? then s.level == 0 && next.level == 1
        else next.level == s.level)
    && (if next.phase.Running? && d.action.ReplaceCandidate?
        then drafts != [] && drafts[0].pair !in s.excluded && next.excluded == s.excluded + [drafts[0].pair]
        else next.excluded == s.excluded)
  }

  lemma {:induction false} StepMoves(s: State, r: Round)
    requires s.phase.Running? && 0 <= s.level
    ensures Moved(s, DecisionIn(s, r), DraftsOf(s, r).drafts, r.review.safe, Step(s, r))
  {
    BudgetExactly(r.review, DraftsOf(s, r), ContextOf(s, r.routeFailures));
    DecisionMoves(s, DraftsOf(s, r), DecisionIn(s, r), r.review.safe);
  }

  /** Any decision that the policy may make is routed and applied so. */
  lemma {:induction false} DecisionMoves(s: State, drafts: Drafts, d: Decision, safe: bool)
    requires s.phase.Running? && 0 <= s.level
    requires (d.passed <==> safe) && (d.action.NoAction? <==> safe) && !d.action.Retry? && !d.action.NoDecision?
    requires (d.budget == 1 <==> MayRetry(d.action)) && (d.budget == 0 <==> !MayRetry(d.action))
    requires d.action.ReplaceCandidate? ==> |drafts.drafts| >= 2 && drafts.drafts[0].pair !in s.excluded
    requires d.action.ExpandSearch? ==> s.level == 0
    requires MayRetry(d.action) ==> d.routeTo == DefaultRoute(d.action)
    ensures Moved(s, d, drafts.drafts, safe, ApplyRecovery(s, drafts, Resolve(Some(d), |s.attempts|, Limit(s))))
  {
  }

  ghost predicate ReplacementRouted(attempts: seq<Attempt>) {
    exists i | 0 <= i < |attempts| :: attempts[i].action.ReplaceCandidate? && attempts[i].status.Routed?
  }

  lemma {:induction false} ReplacementsGrow(before: seq<Attempt>, after: seq<Attempt>)
    requires |after| == |before| + 1 && after[..|before|] == before
    ensures ReplacementRouted(after) <==>
            ReplacementRouted(before) || (after[|before|].action.ReplaceCandidate? && after[|before|].status.Routed?)
  {
    if i :| 0 <= i < |before| && before[i].action.ReplaceCandidate? && before[i].status.Routed? {
      assert after[i] == after[..|before|][i];
    }
    if i :| 0 <= i < |after| && after[i].action.ReplaceCandidate? && after[i].status.Routed? {
      assert i < |before| ==> before[i] == after[..|before|][i];
    }
  }

  lemma {:induction false} MovedKeepsSound(s: State, d: Decision, drafts: seq<Draft>, safe: bool, next: State)
    requires s.phase.Running? && Sound(s) && Moved(s, d, drafts, safe, next)
    requires MayRetry(d.action) ==> !safe
    ensures Sound(next)
  {
    if !safe {
      ReplacementsGrow(s.attempts, next.attempts);
    }
  }

  lemma {:induction false} StepKeepsSound(s: State, r: Round)
    requires Sound(s)
    ensures Sound(Step(s, r))
  {
    if s.phase.Running? {
      StepMoves(s, r);
      BudgetExactly(r.review, DraftsOf(s, r), ContextOf(s, r.routeFailures));
      MovedKeepsSound(s, DecisionIn(s, r), DraftsOf(s, r).drafts, r.review.safe, Step(s, r));
    }
  }

  lemma {:induction false} AlwaysSound(maxAttempts: int, rounds: seq<Round>)
    ensures Sound(Run(Start(maxAttempts), rounds))
  {
    if rounds != [] {
      var last := |rounds| - 1;
      AlwaysSound(maxAttempts, rounds[..last]);
      StepKeepsSound(Run(Start(maxAttempts), rounds[..last]), rounds[last]);
    }
  }

  /** The attempts that a run is allowed: as many as asked for, none for a negative number, and one for zero. */
  ghost function Allowed(maxAttempts: int): nat {
    if maxAttempts > 0 then maxAttempts else if maxAttempts == 0 then 1 else 0
  }

  /**
   * A run goes on after a round exactly when a candidate is to be replaced or the search to be expanded, and not all
   * allowed attempts were made.
   */
  lemma {:induction false} GoesOnExactly(maxAttempts: int, rounds: seq<Round>, r: Round)
    requires Run(Start(maxAttempts), rounds).phase.Running?
    ensures var s := Run(Start(maxAttempts), rounds);
            var drafts, c := DraftsOf(s, r), ContextOf(s, r.routeFailures);
            Step(s, r).phase.Running? <==>
            && !r.review.safe && !MustStop(r.review, drafts, c)
            && (Replaceable(r.review, drafts, c) || Expandable(r.review, drafts, c))
            && |rounds| < Allowed(maxAttempts)
  {
    var s := Run(Start(maxAttempts), rounds);
    AlwaysSound(maxAttempts, rounds);
    RunningTakesAllRounds(maxAttempts, rounds);
    SameMaximum(maxAttempts, rounds);
    StepMoves(s, r);
    ChosenExactly(r.review, DraftsOf(s, r), ContextOf(s, r.routeFailures));
  }

  lemma {:induction false} SameMaximum(maxAttempts: int, rounds: seq<Round>)
    ensures Run(Start(maxAttempts), rounds).maxAttempts == maxAttempts
  {
    if rounds != [] {
      SameMaximum(maxAttempts, rounds[..|rounds| - 1]);
    }
  }

  ghost predicate DrawnFrom(rounds: seq<Round>, universe: set<Pair>) {
    forall r | r in rounds :: forall d | d in r.proposed.drafts :: d.pair in universe
  }

  lemma {:induction false} ExcludedFromUniverse(maxAttempts: int, rounds: seq<Round>, universe: set<Pair>)
    requires DrawnFrom(rounds, universe)
    ensures forall pair | pair in Run(Start(maxAttempts), rounds).excluded :: pair in universe
  {
    if rounds != [] {
      var last := |rounds| - 1;
      ExcludedFromUniverse(maxAttempts, rounds[..last], universe);
      AlwaysSound(maxAttempts, rounds[..last]);
      var s := Run(Start(maxAttempts), rounds[..last]);
      if s.phase.Running? {
        StepMoves(s, rounds[last]);
        FilteredExactly(rounds[last].proposed.drafts, s.excluded);
        var drafts := DraftsOf(s, rounds[last]).drafts;
        if drafts != [] {
          assert drafts[0] in drafts;
        }
      }
    }
  }

  lemma {:induction false} DistinctFit(pairs: seq<Pair>, universe: set<Pair>)
    requires NoDuplicates(pairs) && forall pair | pair in pairs :: pair in universe
    ensures |pairs| <= |universe|
  {
    if pairs != [] {
      var last := |pairs| - 1;
      DistinctFit(pairs[..last], universe - {pairs[last]});
      assert pairs[last] in universe;
    }
  }

  lemma {:induction false} RunningTakesAllRounds(maxAttempts: int, rounds: seq<Round>)
    ensures var s := Run(Start(maxAttempts), rounds);
            s.phase.Running? ==> |s.attempts| == |rounds|
  {
    if rounds != [] {
      var last := |rounds| - 1;
      RunningTakesAllRounds(maxAttempts, rounds[..last]);
      AlwaysSound(maxAttempts, rounds[..last]);
      var s := Run(Start(maxAttempts), rounds[..last]);
      if s.phase.Running? {
        StepMoves(s, rounds[last]);
      }
    }
  }

  /**
   * Recovery terminates. Over drafts from a finite universe of pairs, whatever reviews come, at most one round more
   * than there are pairs goes round again, and never more than the allowed number of attempts; exactly one pair was
   * excluded, or the search was expanded, each time. So a run that is still going has not had more rounds than that.
   */
  lemma {:induction false} RecoveryTerminates(maxAttempts: int, rounds: seq<Round>, universe: set<Pair>)
    requires DrawnFrom(rounds, universe)
    ensures var s := Run(Start(maxAttempts), rounds);
            && RoutedCount(s.attempts) == |s.excluded| + s.level <= |universe| + 1
            && RoutedCount(s.attempts) <= Allowed(maxAttempts)
            && |s.attempts| <= RoutedCount(s.attempts) + 1
            && (s.phase.Running? ==> |rounds| == RoutedCount(s.attempts))
  {
    AlwaysSound(maxAttempts, rounds);
    SameMaximum(maxAttempts, rounds);
    ExcludedFromUniverse(maxAttempts, rounds, universe);
    DistinctFit(Run(Start(maxAttempts), rounds).excluded, universe);
    RunningTakesAllRounds(maxAttempts, rounds);
  }

  /** At any point of any run: after a replacement, an unavailable table ends the run at once, and stops safely. */
  lemma {:induction false} NoSecondReplacementForATable(maxAttempts: int, rounds: seq<Round>, r: Round)
    requires var s := Run(Start(maxAttempts), rounds);
             s.phase.Running? && s.excluded != [] && !r.review.safe && ReportsNoTable(r.review)
    ensures var s := Run(Start(maxAttempts), rounds);
            DecisionIn(s, r).action.StopSafely? && Step(s, r).phase.Failed? && Step(s, r).excluded == s.excluded
  {
    AlwaysSound(maxAttempts, rounds);
    TableEndsReplacing(Run(Start(maxAttempts), rounds), r);
  }

  lemma {:induction false} TableEndsReplacing(s: State, r: Round)
    requires s.phase.Running? && Sound(s) && s.excluded != [] && !r.review.safe && ReportsNoTable(r.review)
    ensures DecisionIn(s, r).action.StopSafely? && Step(s, r).phase.Failed? && Step(s, r).excluded == s.excluded
  {
    var i :| 0 <= i < |s.attempts| && s.attempts[i].action.ReplaceCandidate?;
    assert ActionsOf(s.attempts)[i] == ReplaceCandidate;
    ChosenExactly(r.review, DraftsOf(s, r), ContextOf(s, r.routeFailures));
    StepMoves(s, r);
  }

  /** A run becomes presentable in the very round whose review is safe, and never otherwise. */
  lemma {:induction false} PresentableExactlyWhenSafe(maxAttempts: int, rounds: seq<Round>, r: Round)
    requires Run(Start(maxAttempts), rounds).phase.Running?
    ensures Step(Run(Start(maxAttempts), rounds), r).phase.Presentable? <==> r.review.safe
  {
    AlwaysSound(maxAttempts, rounds);
    StepMoves(Run(Start(maxAttempts), rounds), r);
  }

  ghost predicate GoingOn(s: State, rounds: nat, universe: set<Pair>) {
    && s.phase.Running? && Sound(s) && |s.attempts| == rounds
    && forall pair | pair in s.excluded :: pair in universe
  }

  lemma {:induction false} GoingOnAfter(maxAttempts: int, rounds: seq<Round>, universe: set<Pair>)
    requires DrawnFrom(rounds, universe) && Run(Start(maxAttempts), rounds).phase.Running?
    ensures GoingOn(Run(Start(maxAttempts), rounds), |rounds|, universe)
  {
    AlwaysSound(maxAttempts, rounds);
    ExcludedFromUniverse(maxAttempts, rounds, universe);
    RunningTakesAllRounds(maxAttempts, rounds);
  }

  /** A budget is granted only while a pair is left to exclude, or the expansion is left to use. */
  lemma {:induction false} GrantedBudgetFits(s: State, rounds: nat, r: Round, universe: set<Pair>)
    requires GoingOn(s, rounds, universe)
    requires forall d | d in r.proposed.drafts :: d.pair in universe
    requires DecisionIn(s, r).budget == 1
    ensures rounds + 1 <= |universe| + 1
  {
    BudgetExactly(r.review, DraftsOf(s, r), ContextOf(s, r.routeFailures));
    DistinctFit(s.excluded, universe);
    if DecisionIn(s, r).action.ReplaceCandidate? {
      var drafts := DraftsOf(s, r).drafts;
      FilteredExactly(r.proposed.drafts, s.excluded);
      assert drafts[0] in drafts;
      DistinctFit(s.excluded + [drafts[0].pair], universe);
    }
  }

  /**
   * Whatever the limit on attempts, the policy alone grants at most one budget more than there are pairs: a run that
   * still goes on was granted one in each of its rounds, and the next is granted only after no more rounds than pairs.
   */
  lemma {:induction false} BudgetsAreBounded(maxAttempts: int, rounds: seq<Round>, r: Round, universe: set<Pair>)
    requires DrawnFrom(rounds, universe) && forall d | d in r.proposed.drafts :: d.pair in universe
    requires Run(Start(maxAttempts), rounds).phase.Running?
    requires DecisionIn(Run(Start(maxAttempts), rounds), r).budget == 1
    ensures |rounds| + 1 <= |universe| + 1
  {
    GoingOnAfter(maxAttempts, rounds, universe);
    GrantedBudgetFits(Run(Start(maxAttempts), rounds), |rounds|, r, universe);
  }
}
