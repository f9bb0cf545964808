/** The progress a user sees: stages derived from the visited workflow nodes and the searches made. */
module Progress {
  import opened Wrappers

  datatype Stage =
    | UnderstandingRequest
    | PlanningQueries
    | SearchingActivities
    | SearchingDining
    | CheckingAvailability
    | BuildingItinerary
    | CheckingRouteTime
    | ReviewingPlan
    | ReadyForConfirmation
    | ExecutingConfirmedActions

  /** A tool event; `count` is the number of results its response tells, if it tells one. */
  datatype ToolEvent = ToolEvent(tool: string, category: Option<string>, canonicalCategory: Option<string>,
      count: Option<int>)

  datatype Counts = Counts(activity: Option<int>, dining: Option<int>)

  datatype StepStatus = Current | Completed

  /** What the summary of a step tells beyond its stage: a number, or that the user declined. */
  datatype Detail = Generic | Counted(n: int) | DeclinedNote

  datatype Step = Step(stage: Stage, status: StepStatus, detail: Detail)

  datatype Summary = Summary(current: Stage, history: seq<Stage>, steps: seq<Step>)

  /** What a workflow node means for the history. */
  datatype NodeKind = SearchNode | StageNode(stage: Stage) | OtherNode

  function KindOf(node: string): NodeKind {
    if node in {"initialize", "parse_intent", "load_memory"} then StageNode(UnderstandingRequest)
    else if node == "generate_queries" then StageNode(PlanningQueries)
    else if node in {"execute_searches", "populate_candidate_blackboard"} then SearchNode
    else if node == "pre_flight_check_availability" then StageNode(CheckingAvailability)
    else if node == "logical_planner_agent" then StageNode(BuildingItinerary)
    else if node == "route_and_time_engine" then StageNode(CheckingRouteTime)
    else if node in {"semantic_validator", "apply_recovery", "final_review", "present_to_user"}
      then StageNode(ReviewingPlan)
    else if node == "wait_confirmation" then StageNode(ReadyForConfirmation)
    else OtherNode
  }

  function KindsOf(nodes: seq<string>): seq<NodeKind> {
    seq(|nodes|, i requires 0 <= i < |nodes| => KindOf(nodes[i]))
  }

  predicate AfterSearch(stage: Stage) {
    stage.CheckingAvailability? || stage.BuildingItinerary? || stage.CheckingRouteTime? || stage.ReviewingPlan?
      || stage.ReadyForConfirmation?
  }

  function AppendUnique(stages: seq<Stage>, stage: Stage): seq<Stage> {
    if stage in stages then stages else stages + [stage]
  }

  function ExtendUnique(stages: seq<Stage>, more: seq<Stage>): seq<Stage> {
    if more == [] then stages else AppendUnique(ExtendUnique(stages, more[..|more| - 1]), more[|more| - 1])
  }

  // ---- searches ------------------------------------------------------------------------------------

  function CategoryOf(e: ToolEvent): Option<string> {
    if e.tool != "search_poi" then None else if e.category.Some? then e.category else e.canonicalCategory
  }

  function SearchStages(events: seq<ToolEvent>): seq<Stage> {
    if events == [] then []
    else
      var before := SearchStages(events[..|events| - 1]);
      var category := CategoryOf(events[|events| - 1]);
      if category == Some("activity") then AppendUnique(before, SearchingActivities)
      else if category == Some("dining") then AppendUnique(before, SearchingDining)
      else before
  }

  function SearchCounts(events: seq<ToolEvent>): Counts {
    if events == [] then Counts(None, None)
    else
      var before := SearchCounts(events[..|events| - 1]);
      var last := events[|events| - 1];
      if last.count.None? then before
      else if CategoryOf(last) == Some("activity") then before.(activity := last.count)
      else if CategoryOf(last) == Some("dining") then before.(dining := last.count)
      else before
  }

  /** `_search_progress_evidence`. */
  method SearchProgressEvidence(events: seq<ToolEvent>) returns (stages: seq<Stage>, counts: Counts)
    ensures stages == SearchStages(events) && counts == SearchCounts(events)
  {
    stages, counts := [], Counts(None, None);
    for i := 0 to |events|
      invariant stages == SearchStages(events[..i]) && counts == SearchCounts(events[..i])
    {
      assert events[..i + 1][..i] == events[..i];
      var resolved := CategoryOf(events[i]);
      if resolved == Some("activity") {
        if SearchingActivities !in stages {
          stages := stages + [SearchingActivities];
        }
        if events[i].count.Some? {
          counts := counts.(activity := events[i].count);
        }
      } else if resolved == Some("dining") {
        if SearchingDining !in stages {
          stages := stages + [SearchingDining];
        }
        if events[i].count.Some? {
          counts := counts.(dining := events[i].count);
        }
      }
    }
    assert events[..|events|] == events;
  }

  // ---- the stage history ---------------------------------------------------------------------------

  /** The history after the nodes, and whether the search stages were inserted. */
  function Visit(nodes: seq<NodeKind>, search: seq<Stage>): (seq<Stage>, bool) {
    if nodes == [] then ([], false)
    else
      var (history, inserted) := Visit(nodes[..|nodes| - 1], search);
      match nodes[|nodes| - 1]
      case OtherNode => (history, inserted)
      case SearchNode => if search == [] then (history, inserted) else (ExtendUnique(history, search), true)
      case StageNode(stage) =>
        if !inserted && search != [] && AfterSearch(stage)
          then (AppendUnique(ExtendUnique(history, search), stage), true)
        else (AppendUnique(history, stage), inserted)
  }

  function History(nodes: seq<NodeKind>, search: seq<Stage>): seq<Stage> {
    var (history, inserted) := Visit(nodes, search);
    if search != [] && !inserted then ExtendUnique(history, search) else history
  }

  method ExtendHistory(stages: seq<Stage>, more: seq<Stage>) returns (extended: seq<Stage>)
    ensures extended == ExtendUnique(stages, more)
  {
    extended := stages;
    for i := 0 to |more|
      invariant extended == ExtendUnique(stages, more[..i])
    {
      assert more[..i + 1][..i] == more[..i];
      if more[i] !in extended {
        extended := extended + [more[i]];
      }
    }
    assert more[..|more|] == more;
  }

  /** `_stage_history`. */
  method StageHistory(nodes: seq<string>, search: seq<Stage>) returns (history: seq<Stage>)
    ensures history == History(KindsOf(nodes), search)
  {
    history := [];
    var inserted := false;
    ghost var kinds := KindsOf(nodes);
    for i := 0 to |nodes|
      invariant (history, inserted) == Visit(kinds[..i], search)
    {
      assert kinds[..i + 1][..i] == kinds[..i];
      match KindOf(nodes[i]) {
        case OtherNode =>
        case SearchNode =>
          if search != [] {
            history := ExtendHistory(history, search);
            inserted := true;
          }
        case StageNode(stage) =>
          if !inserted && search != [] && AfterSearch(stage) {
            history := ExtendHistory(history, search);
            inserted := true;
          }
          history := AppendUnique(history, stage);
      }
    }
    assert kinds[..|nodes|] == kinds;
    if search != [] && !inserted {
      history := ExtendHistory(history, search);
    }
  }

  // ---- the current stage ---------------------------------------------------------------------------

  /** What is known of a run besides its nodes and events. */
  datatype Evidence = Evidence(
    runStatus: string, continuation: seq<string>, executionStatus: Option<string>, feedbackStatus: Option<string>,
    planCount: Option<int>, actionCount: Option<int>)

  const EXECUTION_HISTORY_STEPS: set<string> := {"confirm_plan", "saga_execution_engine", "generate_summary_message"}
  const EXECUTION_STATUSES: set<string> := {"succeeded", "partially_succeeded", "failed", "skipped"}
  const FEEDBACK_STATUSES: set<string> := {"completed", "partially_completed", "failed", "skipped"}

  predicate DidExecute(e: Evidence) {
    || (exists i | 0 <= i < |e.continuation| :: e.continuation[i] in EXECUTION_HISTORY_STEPS)
    || (e.executionStatus.Some? && e.executionStatus.value in EXECUTION_STATUSES)
    || (e.feedbackStatus.Some? && e.feedbackStatus.value in FEEDBACK_STATUSES)
    || e.runStatus in {"completed", "partially_completed", "skipped"}
  }

  function CurrentStage(e: Evidence, nodes: seq<string>, history: seq<Stage>): Stage {
    if DidExecute(e) then ExecutingConfirmedActions
    else if e.runStatus == "declined" then ReadyForConfirmation
    else if "wait_confirmation" in nodes || e.runStatus == "awaiting_confirmation" then ReadyForConfirmation
    else if history != [] then history[|history| - 1]
    else if e.runStatus == "awaiting_clarification" then PlanningQueries
    else UnderstandingRequest
  }

  function DetailOf(stage: Stage, e: Evidence, counts: Counts): Detail {
    match stage
    case SearchingActivities => if counts.activity.Some? then Counted(counts.activity.value) else Generic
    case SearchingDining => if counts.dining.Some? then Counted(counts.dining.value) else Generic
    case BuildingItinerary => if e.planCount.Some? && e.planCount.value > 0 then Counted(e.planCount.value) else Generic
    case ReadyForConfirmation => if e.runStatus == "declined" then DeclinedNote else Generic
    case ExecutingConfirmedActions =>
      if e.actionCount.Some? && e.actionCount.value > 0 then Counted(e.actionCount.value) else Generic
    case _ => Generic
  }

  /** `_build_steps`: one step per stage, the last one current. */
  method BuildSteps(history: seq<Stage>, e: Evidence, counts: Counts) returns (steps: seq<Step>)
    ensures |steps| == |history|
    ensures forall i | 0 <= i < |history| ::
              steps[i] == Step(history[i], if i == |history| - 1 then Current else Completed,
                               DetailOf(history[i], e, counts))
  {
    steps := [];
    for i := 0 to |history|
      invariant |steps| == i
      invariant forall j | 0 <= j < i ::
                  steps[j] == Step(history[j], if j == |history| - 1 then Current else Completed,
                                   DetailOf(history[j], e, counts))
    {
      steps := steps + [Step(history[i], if i == |history| - 1 then Current else Completed,
                             DetailOf(history[i], e, counts))];
    }
  }

  ghost predicate Shows(summary: Summary, e: Evidence, nodes: seq<string>, events: seq<ToolEvent>) {
    var history := History(KindsOf(nodes), SearchStages(events));
    && summary.current == CurrentStage(e, nodes, history)
    && summary.history == AppendUnique(history, summary.current)
    && |summary.steps| == |summary.history|
    && forall i | 0 <= i < |summary.history| ::
         summary.steps[i] == Step(summary.history[i], if i == |summary.history| - 1 then Current else Completed,
                                  DetailOf(summary.history[i], e, SearchCounts(events)))
  }

  /** `build_demo_progress_summary_from_evidence`. */
  method BuildSummary(e: Evidence, nodes: seq<string>, events: seq<ToolEvent>) returns (summary: Summary)
    ensures Shows(summary, e, nodes, events)
  {
    var search, counts := SearchProgressEvidence(events);
    var history := StageHistory(nodes, search);
    var current := CurrentStage(e, nodes, history);
    history := AppendUnique(history, current);
    var steps := BuildSteps(history, e, counts);
    summary := Summary(current, history, steps);
  }

  /** `_truncate_progress_summary`: the summary as it was when the stage was reached; None when it never was. */
  method Truncate(progress: Summary, target: Stage) returns (truncated: Option<Summary>)
    requires |progress.steps| == |progress.history|
    ensures truncated.None? <==> target !in progress.history
    ensures truncated.Some? ==>
              var t := truncated.value;
              && t.history != [] && t.history <= progress.history && t.history[|t.history| - 1] == target == t.current
              && target !in t.history[..|t.history| - 1]
              && |t.steps| == |t.history|
              && forall i | 0 <= i < |t.steps| ::
                 t.steps[i] == progress.steps[i].(status := if i == |t.steps| - 1 then Current else Completed)
  {
    var end := 0;
    while end < |progress.history| && progress.history[end] != target
      invariant 0 <= end <= |progress.history|
      invariant target !in progress.history[..end]
    {
      end := end + 1;
    }
    if end == |progress.history| {
      assert progress.history[..end] == progress.history;
      return None;
    }
    var steps := seq(end + 1,
                     i requires 0 <= i < end + 1 =>
                       progress.steps[i].(status := if i == end then Current else Completed));
    truncated := Some(Summary(target, progress.history[..end + 1], steps));
  }

  // ---- what nodes, events and evidence mean ------------------------------------------------------------

  /** The nodes of a stage. */
  ghost predicate StandsFor(node: string, stage: Stage) {
    match stage
    case UnderstandingRequest => node == "initialize" || node == "parse_intent" || node == "load_memory"
    case PlanningQueries => node == "generate_queries"
    case CheckingAvailability => node == "pre_flight_check_availability"
    case BuildingItinerary => node == "logical_planner_agent"
    case CheckingRouteTime => node == "route_and_time_engine"
    case ReviewingPlan =>
      node == "semantic_validator" || node == "apply_recovery" || node == "final_review" || node == "present_to_user"
    case ReadyForConfirmation => node == "wait_confirmation"
    case _ => false
  }

  ghost predicate Searches(node: string) {
    node == "execute_searches" || node == "populate_candidate_blackboard"
  }

  lemma {:induction false} NodeNamesDiffer()
    ensures "initialize" != "parse_intent" && "generate_queries" != "execute_searches"
    ensures "generate_queries" != "present_to_user"
    ensures "populate_candidate_blackboard" != "pre_flight_check_availability"
    ensures "logical_planner_agent" != "route_and_time_engine" && "final_review" != "parse_intent"
  {
    assert "initialize"[0] == 'i' && "parse_intent"[0] == 'p' && "final_review"[0] == 'f';
    assert "generate_queries"[0] == 'g' && "execute_searches"[0] == 'e' && "present_to_user"[0] == 'p';
    assert "populate_candidate_blackboard"[1] == 'o' && "pre_flight_check_availability"[1] == 'r';
    assert "logical_planner_agent"[0] == 'l' && "route_and_time_engine"[0] == 'r';
  }

  lemma {:induction false} NodeLengths()
    ensures |"initialize"| == 10 && |"parse_intent"| == 12 && |"load_memory"| == 11 && |"generate_queries"| == 16
    ensures |"execute_searches"| == 16 && |"populate_candidate_blackboard"| == 29
    ensures |"pre_flight_check_availability"| == 29 && |"logical_planner_agent"| == 21
    ensures |"route_and_time_engine"| == 21 && |"semantic_validator"| == 18 && |"apply_recovery"| == 14
    ensures |"final_review"| == 12 && |"present_to_user"| == 15 && |"wait_confirmation"| == 17
  {
  }

  lemma {:induction false} KindExactly(node: string, stage: Stage)
    ensures KindOf(node) == StageNode(stage) <==> StandsFor(node, stage)
    ensures KindOf(node) == SearchNode <==> Searches(node)
  {
    NodeLengths();
    NodeNamesDiffer();
  }

  /** A search for places of the kind: its category says so, or else its canonical category. */
  ghost predicate SearchedFor(e: ToolEvent, kind: string) {
    && e.tool == "search_poi"
    && (e.category == Some(kind) || (e.category.None? && e.canonicalCategory == Some(kind)))
  }

  lemma {:induction false} CategoryExactly(e: ToolEvent, kind: string)
    ensures CategoryOf(e) == Some(kind) <==> SearchedFor(e, kind)
  {
  }

  /** The search stage of an event. */
  ghost predicate Starts(e: ToolEvent, stage: Stage) {
    match stage
    case SearchingActivities => SearchedFor(e, "activity")
    case SearchingDining => SearchedFor(e, "dining")
    case _ => false
  }

  ghost predicate Started(events: seq<ToolEvent>, stage: Stage) {
    exists i | 0 <= i < |events| :: Starts(events[i], stage)
  }

  lemma {:induction false} StartedGrows(before: seq<ToolEvent>, e: ToolEvent, stage: Stage)
    ensures Started(before + [e], stage) <==> Started(before, stage) || Starts(e, stage)
  {
    var all := before + [e];
    if i :| 0 <= i < |before| && Starts(before[i], stage) {
      assert all[i] == before[i];
    }
    if Starts(e, stage) {
      assert all[|before|] == e;
    }
    if i :| 0 <= i < |all| && Starts(all[i], stage) {
      assert all[i] == if i < |before| then before[i] else e;
    }
  }

  /** The search stages are those that some event starts, each once. */
  lemma {:induction false} SearchStagesExactly(events: seq<ToolEvent>)
    ensures NoDuplicates(SearchStages(events))
    ensures forall stage :: stage in SearchStages(events) <==> Started(events, stage)
  {
    if events != [] {
      var before, e := events[..|events| - 1], events[|events| - 1];
      assert events == before + [e];
      SearchStagesExactly(before);
      CategoryExactly(e, "activity");
      CategoryExactly(e, "dining");
      assert "activity" != "dining" by {
        assert |"activity"| == 8 && |"dining"| == 6;
      }
      forall stage ensures stage in SearchStages(events) <==> Started(events, stage) {
        StartedGrows(before, e, stage);
      }
    }
  }

  /** The last search of the kind that tells a number tells this one. */
  ghost predicate LastCounted(events: seq<ToolEvent>, kind: string, n: int) {
    exists i | 0 <= i < |events| ::
      && SearchedFor(events[i], kind) && events[i].count == Some(n)
      && forall j | i < j < |events| && SearchedFor(events[j], kind) :: events[j].count.None?
  }

  lemma {:induction false} CountedGrows(before: seq<ToolEvent>, e: ToolEvent, kind: string, n: int)
    ensures LastCounted(before + [e], kind, n) <==>
            if SearchedFor(e, kind) && e.count.Some? then e.count == Some(n) else LastCounted(before, kind, n)
  {
    var all := before + [e];
    assert all[|before|] == e;
    if i :| 0 <= i < |all| && SearchedFor(all[i], kind) && all[i].count == Some(n)
            && forall j | i < j < |all| && SearchedFor(all[j], kind) :: all[j].count.None? {
      if i < |before| {
        assert before[i] == all[i] && forall j | i < j < |before| :: before[j] == all[j];
      }
    }
    if i :| 0 <= i < |before| && SearchedFor(before[i], kind) && before[i].count == Some(n)
            && forall j | i < j < |before| && SearchedFor(before[j], kind) :: before[j].count.None? {
      assert all[i] == before[i] && forall j | i < j < |before| :: all[j] == before[j];
    }
  }

  /** The counts are the last ones told. */
  lemma {:induction false} CountsExactly(events: seq<ToolEvent>, n: int)
    ensures SearchCounts(events).activity == Some(n) <==> LastCounted(events, "activity", n)
    ensures SearchCounts(events).dining == Some(n) <==> LastCounted(events, "dining", n)
  {
    if events != [] {
      var before, e := events[..|events| - 1], events[|events| - 1];
      assert events == before + [e];
      CountsExactly(before, n);
      CountedGrows(before, e, "activity", n);
      CountedGrows(before, e, "dining", n);
      CategoryExactly(e, "activity");
      CategoryExactly(e, "dining");
      assert "activity" != "dining" by {
        assert |"activity"| == 8 && |"dining"| == 6;
      }
    }
  }

  /** The execution has begun: its steps, its status, its feedback or the run say so. */
  ghost predicate HasExecuted(e: Evidence) {
    || "confirm_plan" in e.continuation || "saga_execution_engine" in e.continuation
    || "generate_summary_message" in e.continuation
    || e.executionStatus in {Some("succeeded"), Some("partially_succeeded"), Some("failed"), Some("skipped")}
    || e.feedbackStatus in {Some("completed"), Some("partially_completed"), Some("failed"), Some("skipped")}
    || e.runStatus == "completed" || e.runStatus == "partially_completed" || e.runStatus == "skipped"
  }

  lemma {:induction false} ExecutedExactly(e: Evidence)
    ensures DidExecute(e) <==> HasExecuted(e)
  {
    forall step | step in e.continuation && step in EXECUTION_HISTORY_STEPS
      ensures exists i :: 0 <= i < |e.continuation| && e.continuation[i] in EXECUTION_HISTORY_STEPS
    {
      var i :| 0 <= i < |e.continuation| && e.continuation[i] == step;
    }
  }

  /** Waiting for the user's confirmation, or declined by the user. */
  ghost predicate AwaitsConfirmation(e: Evidence, nodes: seq<string>) {
    e.runStatus == "declined" || e.runStatus == "awaiting_confirmation" || "wait_confirmation" in nodes
  }

  /** The current stage: the execution, the confirmation, the last stage of the history, or one without any history. */
  lemma {:induction false} CurrentExactly(e: Evidence, nodes: seq<string>, history: seq<Stage>)
    ensures var current := CurrentStage(e, nodes, history);
            && (HasExecuted(e) ==> current == ExecutingConfirmedActions)
            && (!HasExecuted(e) && AwaitsConfirmation(e, nodes) ==> current == ReadyForConfirmation)
            && (!HasExecuted(e) && !AwaitsConfirmation(e, nodes) ==>
                if history != [] then current == history[|history| - 1]
                else if e.runStatus == "awaiting_clarification" then current == PlanningQueries
                else current == UnderstandingRequest)
  {
    ExecutedExactly(e);
  }

  ghost predicate IsPositive(count: Option<int>, n: int) {
    count == Some(n) && n > 0
  }

  /** The number that is told of a stage. */
  ghost predicate Tells(stage: Stage, e: Evidence, events: seq<ToolEvent>, n: int) {
    match stage
    case SearchingActivities => LastCounted(events, "activity", n)
    case SearchingDining => LastCounted(events, "dining", n)
    case BuildingItinerary => IsPositive(e.planCount, n)
    case ExecutingConfirmedActions => IsPositive(e.actionCount, n)
    case _ => false
  }

  lemma {:induction false} DetailExactly(stage: Stage, e: Evidence, events: seq<ToolEvent>)
    ensures var detail := DetailOf(stage, e, SearchCounts(events));
            && (forall n :: detail == Counted(n) <==> Tells(stage, e, events, n))
            && (detail == DeclinedNote <==> stage.ReadyForConfirmation? && e.runStatus == "declined")
  {
    forall n ensures DetailOf(stage, e, SearchCounts(events)) == Counted(n) <==> Tells(stage, e, events, n) {
      CountsExactly(events, n);
    }
  }

  // ---- the laws of the history -----------------------------------------------------------------------

  ghost predicate NoDuplicates(stages: seq<Stage>) {
    forall i, j | 0 <= i < j < |stages| :: stages[i] != stages[j]
  }

  lemma {:induction false} ExtendUniqueLaws(stages: seq<Stage>, more: seq<Stage>)
    requires NoDuplicates(stages)
    ensures var extended := ExtendUnique(stages, more);
            && NoDuplicates(extended) && stages <= extended
            && forall stage :: stage in extended <==> stage in stages || stage in more
  {
    if more != [] {
      assert more == more[..|more| - 1] + [more[|more| - 1]];
      ExtendUniqueLaws(stages, more[..|more| - 1]);
    }
  }

  predicate IsSearchStage(stage: Stage) {
    stage.SearchingActivities? || stage.SearchingDining?
  }

  lemma {:induction false} SearchStagesAreSearches(events: seq<ToolEvent>)
    ensures forall stage | stage in SearchStages(events) :: IsSearchStage(stage)
  {
    if events != [] {
      SearchStagesAreSearches(events[..|events| - 1]);
    }
  }

  ghost predicate Visited(nodes: seq<NodeKind>, stage: Stage) {
    StageNode(stage) in nodes
  }

  /** No node stands for a search or for the execution; those stages have other evidence. */
  ghost predicate FromNodes(nodes: seq<NodeKind>) {
    forall kind | kind in nodes && kind.StageNode? ::
      !IsSearchStage(kind.stage) && !kind.stage.ExecutingConfirmedActions?
  }

  lemma {:induction false} KindIsFromNode(node: string)
    ensures KindOf(node).StageNode? ==>
            !IsSearchStage(KindOf(node).stage) && !KindOf(node).stage.ExecutingConfirmedActions?
  {
  }

  lemma {:induction false} KindsAreFromNodes(nodes: seq<string>)
    ensures FromNodes(KindsOf(nodes))
  {
    forall i | 0 <= i < |nodes| && KindsOf(nodes)[i].StageNode?
      ensures !IsSearchStage(KindsOf(nodes)[i].stage) && !KindsOf(nodes)[i].stage.ExecutingConfirmedActions?
    {
      KindIsFromNode(nodes[i]);
    }
  }

  ghost predicate SearchesFirst(history: seq<Stage>) {
    forall i, j | 0 <= i < |history| && 0 <= j < |history| && IsSearchStage(history[i]) && AfterSearch(history[j]) ::
      i < j
  }

  /** What the loop keeps; before the search stages are inserted, no stage that must follow them is there. */
  ghost predicate VisitSound(nodes: seq<NodeKind>, search: seq<Stage>, history: seq<Stage>, inserted: bool) {
    && NoDuplicates(history)
    && SearchesFirst(history)
    && (inserted ==> search != [])
    && (forall stage :: stage in history <==> Visited(nodes, stage) || (inserted && stage in search))
    && (!inserted && search != [] ==> forall stage | stage in history :: !AfterSearch(stage))
  }

  lemma {:induction false} InsertKeepsSound(
      nodes: seq<NodeKind>, search: seq<Stage>, history: seq<Stage>, inserted: bool)
    requires VisitSound(nodes, search, history, inserted) && search != []
    requires forall stage | stage in search :: IsSearchStage(stage)
    ensures VisitSound(nodes, search, ExtendUnique(history, search), true)
  {
    ExtendUniqueLaws(history, search);
    InsertSound(history, search, inserted);
  }

  lemma {:induction false} StageKeepsSound(
      nodes: seq<NodeKind>, search: seq<Stage>, history: seq<Stage>, inserted: bool, stage: Stage)
    requires VisitSound(nodes, search, history, inserted) && (inserted || search == [] || !AfterSearch(stage))
    requires !IsSearchStage(stage)
    ensures VisitSound(nodes + [StageNode(stage)], search, AppendUnique(history, stage), inserted)
  {
  }

  lemma {:induction false} VisitIsSound(nodes: seq<NodeKind>, search: seq<Stage>)
    requires FromNodes(nodes) && forall stage | stage in search :: IsSearchStage(stage)
    ensures VisitSound(nodes, search, Visit(nodes, search).0, Visit(nodes, search).1)
  {
    if nodes != [] {
      var last := |nodes| - 1;
      assert nodes == nodes[..last] + [nodes[last]];
      assert nodes[last] in nodes;
      VisitIsSound(nodes[..last], search);
      var (history, inserted) := Visit(nodes[..last], search);
      if search != [] {
        InsertKeepsSound(nodes[..last], search, history, inserted);
      }
      if nodes[last].StageNode? {
        var stage := nodes[last].stage;
        if !inserted && search != [] && AfterSearch(stage) {
          StageKeepsSound(nodes[..last], search, ExtendUnique(history, search), true, stage);
        } else {
          StageKeepsSound(nodes[..last], search, history, inserted, stage);
        }
      }
    }
  }

  lemma {:induction false} InsertSound(history: seq<Stage>, search: seq<Stage>, inserted: bool)
    requires NoDuplicates(history) && SearchesFirst(history)
    requires forall stage | stage in search :: IsSearchStage(stage)
    requires if inserted then forall stage | stage in search :: stage in history
             else forall stage | stage in history :: !AfterSearch(stage) || search == []
    ensures SearchesFirst(ExtendUnique(history, search))
    ensures inserted ==> ExtendUnique(history, search) == history
  {
    ExtendUniqueLaws(history, search);
    var extended := ExtendUnique(history, search);
    if inserted {
      NothingNew(history, search);
    } else if search == [] {
    } else {
      forall j | 0 <= j < |extended| ensures !AfterSearch(extended[j]) {
        assert extended[j] in extended;
      }
    }
  }

  lemma {:induction false} NothingNew(stages: seq<Stage>, more: seq<Stage>)
    requires forall stage | stage in more :: stage in stages
    ensures ExtendUnique(stages, more) == stages
  {
    if more != [] {
      assert more == more[..|more| - 1] + [more[|more| - 1]];
      NothingNew(stages, more[..|more| - 1]);
    }
  }

  lemma {:induction false} HistoryOfKinds(nodes: seq<NodeKind>, search: seq<Stage>)
    requires FromNodes(nodes) && forall stage | stage in search :: IsSearchStage(stage)
    ensures var history := History(nodes, search);
            && NoDuplicates(history)
            && SearchesFirst(history)
            && forall stage :: stage in history <==> Visited(nodes, stage) || stage in search
  {
    VisitIsSound(nodes, search);
    var (history, inserted) := Visit(nodes, search);
    ExtendUniqueLaws(history, search);
    if search != [] && !inserted {
      InsertSound(history, search, inserted);
    }
  }

  ghost predicate Reached(nodes: seq<string>, stage: Stage) {
    exists node | node in nodes :: StandsFor(node, stage)
  }

  lemma {:induction false} VisitedExactly(nodes: seq<string>, stage: Stage)
    ensures Visited(KindsOf(nodes), stage) <==> Reached(nodes, stage)
  {
    forall node ensures KindOf(node) == StageNode(stage) <==> StandsFor(node, stage) {
      KindExactly(node, stage);
    }
    if Visited(KindsOf(nodes), stage) {
      var i :| 0 <= i < |nodes| && KindsOf(nodes)[i] == StageNode(stage);
      assert nodes[i] in nodes;
    }
    if node :| node in nodes && StandsFor(node, stage) {
      var i :| 0 <= i < |nodes| && nodes[i] == node;
      assert KindsOf(nodes)[i] == StageNode(stage);
    }
  }

  /** Availability, itinerary, routes, review and confirmation come after the searches. */
  ghost predicate FollowsSearch(stage: Stage) {
    match stage
    case CheckingAvailability => true
    case BuildingItinerary => true
    case CheckingRouteTime => true
    case ReviewingPlan => true
    case ReadyForConfirmation => true
    case _ => false
  }

  ghost predicate SearchesBefore(history: seq<Stage>) {
    forall i, j | 0 <= i < |history| && 0 <= j < |history|
                  && (history[i].SearchingActivities? || history[i].SearchingDining?) && FollowsSearch(history[j]) ::
      i < j
  }

  /**
   * The history of any nodes and events has no duplicates; it holds exactly the stages of the nodes and those of the
   * searches; and the searches stand before availability, itinerary, routes, review and confirmation.
   */
  lemma {:induction false} HistoryLaws(nodes: seq<string>, events: seq<ToolEvent>)
    ensures var history := History(KindsOf(nodes), SearchStages(events));
            && NoDuplicates(history)
            && SearchesBefore(history)
            && forall stage :: stage in history <==> Reached(nodes, stage) || Started(events, stage)
  {
    SearchStagesAreSearches(events);
    KindsAreFromNodes(nodes);
    HistoryOfKinds(KindsOf(nodes), SearchStages(events));
    SearchStagesExactly(events);
    var history := History(KindsOf(nodes), SearchStages(events));
    forall stage ensures stage in history <==> Reached(nodes, stage) || Started(events, stage) {
      VisitedExactly(nodes, stage);
    }
  }

  // ---- where the searches stand --------------------------------------------------------------------------

  /** A node at which searches that were made must stand in the history. */
  ghost predicate PlacesSearches(node: string) {
    Searches(node) || exists stage :: FollowsSearch(stage) && StandsFor(node, stage)
  }

  /** The first such node, or the end. */
  ghost function FirstPlace(nodes: seq<string>): (k: nat)
    ensures k <= |nodes| && forall i | 0 <= i < k :: !PlacesSearches(nodes[i])
    ensures k < |nodes| ==> PlacesSearches(nodes[k])
    decreases |nodes|
  {
    if nodes == [] || PlacesSearches(nodes[0]) then 0 else 1 + FirstPlace(nodes[1..])
  }

  lemma {:induction false} PlaceOfKind(node: string)
    ensures PlacesSearches(node) <==>
            KindOf(node).SearchNode? || (KindOf(node).StageNode? && AfterSearch(KindOf(node).stage))
  {
    forall stage ensures KindOf(node) == StageNode(stage) <==> StandsFor(node, stage) {
      KindExactly(node, stage);
    }
    KindExactly(node, UnderstandingRequest);
  }

  lemma {:induction false} NotInsertedBefore(nodes: seq<string>, search: seq<Stage>)
    requires forall i | 0 <= i < |nodes| :: !PlacesSearches(nodes[i])
    ensures Visit(KindsOf(nodes), search) == (Visit(KindsOf(nodes), []).0, false)
    ensures History(KindsOf(nodes), []) == Visit(KindsOf(nodes), []).0
  {
    if nodes != [] {
      var last := |nodes| - 1;
      NotInsertedBefore(nodes[..last], search);
      PlaceOfKind(nodes[last]);
      assert KindsOf(nodes)[..last] == KindsOf(nodes[..last]);
    }
  }

  lemma {:induction false} ExtendApart(stages: seq<Stage>, more: seq<Stage>)
    requires NoDuplicates(more) && forall stage | stage in more :: stage !in stages
    ensures ExtendUnique(stages, more) == stages + more
  {
    if more != [] {
      var last := |more| - 1;
      assert more == more[..last] + [more[last]];
      ExtendApart(stages, more[..last]);
    }
  }

  /**
   * Searches that were made stand right behind the stages of the nodes before the first that searches, or that must
   * follow a search.
   */
  lemma {:induction false} SearchesStandThere(nodes: seq<string>, events: seq<ToolEvent>)
    ensures var before := History(KindsOf(nodes[..FirstPlace(nodes)]), []);
            SearchStages(events) != [] ==>
              before + SearchStages(events) <= History(KindsOf(nodes), SearchStages(events))
  {
    var k, search := FirstPlace(nodes), SearchStages(events);
    var before := History(KindsOf(nodes[..k]), []);
    SearchStagesAreSearches(events);
    SearchStagesExactly(events);
    NotInsertedBefore(nodes[..k], search);
    KindsAreFromNodes(nodes[..k]);
    VisitIsSound(KindsOf(nodes[..k]), []);
    NeverSearching(KindsOf(nodes[..k]), before);
    ExtendApart(before, search);
    if search != [] {
      if k == |nodes| {
        assert nodes[..k] == nodes;
      } else {
        PlaceOfKind(nodes[k]);
        InsertedThere(nodes, k, search, before);
      }
    }
  }

  lemma {:induction false} NeverSearching(nodes: seq<NodeKind>, history: seq<Stage>)
    requires FromNodes(nodes) && VisitSound(nodes, [], history, false)
    ensures forall stage | IsSearchStage(stage) :: stage !in history
  {
  }

  lemma {:induction false} InsertedThere(nodes: seq<string>, k: nat, search: seq<Stage>, before: seq<Stage>)
    requires k < |nodes| && search != [] && ExtendUnique(before, search) == before + search
    requires Visit(KindsOf(nodes[..k]), search) == (before, false)
    requires KindOf(nodes[k]).SearchNode? || (KindOf(nodes[k]).StageNode? && AfterSearch(KindOf(nodes[k]).stage))
    ensures before + search <= History(KindsOf(nodes), search)
  {
    var kinds := KindsOf(nodes);
    assert kinds[..k] == KindsOf(nodes[..k]) && kinds[..k + 1][..k] == kinds[..k];
    assert before + search <= Visit(kinds[..k + 1], search).0;
    VisitGrows(kinds, search, k + 1);
    OnlyExtends(Visit(kinds, search).0, search);
  }

  /** Search stages keep the order in which they started. */
  lemma {:induction false} SearchStagesGrow(events: seq<ToolEvent>, more: seq<ToolEvent>)
    ensures SearchStages(events) <= SearchStages(events + more)
  {
    if more == [] {
      assert events + more == events;
    } else {
      assert (events + more)[..|events + more| - 1] == events + more[..|more| - 1];
      SearchStagesGrow(events, more[..|more| - 1]);
    }
  }

  /** Streaming never takes a stage back: more nodes and more events keep every stage. */
  lemma {:induction false} HistoryNeverLosesAStage(
      nodes: seq<string>, moreNodes: seq<string>, events: seq<ToolEvent>, moreEvents: seq<ToolEvent>,
      stage: Stage)
    requires stage in History(KindsOf(nodes), SearchStages(events))
    ensures stage in History(KindsOf(nodes + moreNodes), SearchStages(events + moreEvents))
  {
    HistoryLaws(nodes, events);
    HistoryLaws(nodes + moreNodes, events + moreEvents);
    ReachedGrows(nodes, moreNodes, stage);
    if i :| 0 <= i < |events| && Starts(events[i], stage) {
      assert (events + moreEvents)[i] == events[i];
    }
  }

  lemma {:induction false} ReachedGrows(nodes: seq<string>, more: seq<string>, stage: Stage)
    ensures Reached(nodes, stage) ==> Reached(nodes + more, stage)
  {
    if node :| node in nodes && StandsFor(node, stage) {
      assert node in nodes + more;
    }
  }

  lemma {:induction false} OneVisitGrows(nodes: seq<NodeKind>, search: seq<Stage>)
    requires nodes != []
    ensures Visit(nodes[..|nodes| - 1], search).0 <= Visit(nodes, search).0
  {
    OnlyExtends(Visit(nodes[..|nodes| - 1], search).0, search);
  }

  lemma {:induction false} PrefixOfPrefix(a: seq<Stage>, b: seq<Stage>, c: seq<Stage>)
    requires a <= b <= c
    ensures a <= c
  {
  }

  lemma {:induction false} VisitGrows(nodes: seq<NodeKind>, search: seq<Stage>, n: nat)
    requires n <= |nodes|
    ensures Visit(nodes[..n], search).0 <= Visit(nodes, search).0
    decreases |nodes|
  {
    if n < |nodes| {
      var prefix := nodes[..|nodes| - 1];
      assert prefix[..n] == nodes[..n];
      VisitGrows(prefix, search, n);
      OneVisitGrows(nodes, search);
      PrefixOfPrefix(Visit(nodes[..n], search).0, Visit(prefix, search).0, Visit(nodes, search).0);
    } else {
      assert nodes[..n] == nodes;
    }
  }

  lemma {:induction false} OnlyExtends(stages: seq<Stage>, more: seq<Stage>)
    ensures stages <= ExtendUnique(stages, more)
  {
    if more != [] {
      OnlyExtends(stages, more[..|more| - 1]);
    }
  }

  lemma {:induction false} WaitKind(node: string)
    ensures KindOf(node) == StageNode(ReadyForConfirmation) <==> node == "wait_confirmation"
  {
  }

  lemma {:induction false} WaitsAlike(nodes: seq<string>)
    ensures StageNode(ReadyForConfirmation) in KindsOf(nodes) <==> "wait_confirmation" in nodes
  {
    forall i | 0 <= i < |nodes|
      ensures KindsOf(nodes)[i] == StageNode(ReadyForConfirmation) <==> nodes[i] == "wait_confirmation" {
      WaitKind(nodes[i]);
    }
  }

  ghost predicate IsFirstWait(nodes: seq<string>, w: nat) {
    && w <= |nodes| && "wait_confirmation" !in nodes[..w]
    && (w < |nodes| ==> nodes[w] == "wait_confirmation")
  }

  /** The position of the first wait for confirmation, or the end. */
  ghost function FirstWait(nodes: seq<string>): (w: nat)
    ensures IsFirstWait(nodes, w)
    decreases |nodes|
  {
    if nodes == [] || nodes[0] == "wait_confirmation" then
      0
    else
      assert forall w :: 0 <= w < |nodes| ==> nodes[..w + 1] == [nodes[0]] + nodes[1..][..w];
      1 + FirstWait(nodes[1..])
  }

  /** At the first wait for confirmation, that stage is the last one. */
  lemma {:induction false} ReadyIsLastAtFirstWait(before: seq<NodeKind>, search: seq<Stage>)
    requires FromNodes(before) && StageNode(ReadyForConfirmation) !in before
             && forall stage | stage in search :: IsSearchStage(stage)
    ensures var (history, inserted) := Visit(before + [StageNode(ReadyForConfirmation)], search);
            && history != [] && history[|history| - 1] == ReadyForConfirmation
            && History(before + [StageNode(ReadyForConfirmation)], search) == history
  {
    assert (before + [StageNode(ReadyForConfirmation)])[..|before|] == before;
    VisitIsSound(before, search);
    ExtendUniqueLaws(Visit(before, search).0, search);
  }

  /** When the history goes on after that, the stage is not the last one any more. */
  lemma {:induction false} ReadyStaysLastExactly(nodes: seq<NodeKind>, w: nat, search: seq<Stage>)
    requires FromNodes(nodes) && w < |nodes| && nodes[w] == StageNode(ReadyForConfirmation)
             && StageNode(ReadyForConfirmation) !in nodes[..w]
    requires forall stage | stage in search :: IsSearchStage(stage)
    ensures var history := History(nodes, search);
            && ReadyForConfirmation in history
            && (history[|history| - 1] == ReadyForConfirmation <==> history == History(nodes[..w + 1], search))
  {
    assert nodes[..w + 1] == nodes[..w] + [nodes[w]];
    ReadyIsLastAtFirstWait(nodes[..w], search);
    VisitGrows(nodes, search, w + 1);
    OnlyExtends(Visit(nodes, search).0, search);
    HistoryOfKinds(nodes, search);
    PrefixOfPrefix(History(nodes[..w + 1], search), Visit(nodes, search).0, History(nodes, search));
    LastOfGrown(History(nodes[..w + 1], search), History(nodes, search));
  }

  /** Every stage of a node behind position w is the stage of a node up to it. */
  ghost predicate NoNewStage(nodes: seq<NodeKind>, w: nat)
    requires w < |nodes|
  {
    forall stage | Visited(nodes, stage) :: Visited(nodes[..w + 1], stage)
  }

  lemma {:induction false} SameStages(before: seq<Stage>, after: seq<Stage>)
    requires before <= after && NoDuplicates(after)
    ensures before == after <==> forall stage | stage in after :: stage in before
  {
    if |before| < |after| {
      assert after[|before|] in after;
      assert forall i | 0 <= i < |before| :: before[i] == after[i];
    }
  }

  lemma {:induction false} NewStagesShow(nodes: seq<NodeKind>, w: nat, search: seq<Stage>)
    requires FromNodes(nodes) && w < |nodes| && forall stage | stage in search :: IsSearchStage(stage)
    ensures FromNodes(nodes[..w + 1])
    ensures (forall stage | stage in History(nodes, search) :: stage in History(nodes[..w + 1], search)) <==>
            NoNewStage(nodes, w)
  {
    assert forall kind | kind in nodes[..w + 1] :: kind in nodes;
    HistoryOfKinds(nodes, search);
    HistoryOfKinds(nodes[..w + 1], search);
    forall stage | Visited(nodes, stage) ensures !IsSearchStage(stage) {
      var i :| 0 <= i < |nodes| && nodes[i] == StageNode(stage);
      assert nodes[i] in nodes;
    }
  }

  /** Some node behind the first wait stands for a stage that no node up to the wait stood for. */
  ghost predicate NewStageAfterWait(nodes: seq<string>, w: nat) {
    w < |nodes| && exists stage :: Reached(nodes, stage) && !Reached(nodes[..w + 1], stage)
  }

  lemma {:induction false} NewStageIsReached(nodes: seq<string>, w: nat)
    requires w < |nodes|
    ensures NewStageAfterWait(nodes, w) <==> !NoNewStage(KindsOf(nodes), w)
  {
    assert KindsOf(nodes)[..w + 1] == KindsOf(nodes[..w + 1]);
    forall stage
      ensures Visited(KindsOf(nodes), stage) <==> Reached(nodes, stage)
      ensures Visited(KindsOf(nodes)[..w + 1], stage) <==> Reached(nodes[..w + 1], stage) {
      VisitedExactly(nodes, stage);
      VisitedExactly(nodes[..w + 1], stage);
    }
  }

  /** Of the kinds alone: confirmation is the last stage exactly when nothing new was reached after the first wait. */
  lemma {:induction false} ReadyStaysLast(nodes: seq<NodeKind>, w: nat, search: seq<Stage>)
    requires FromNodes(nodes) && w < |nodes| && forall stage | stage in search :: IsSearchStage(stage)
    requires nodes[w] == StageNode(ReadyForConfirmation) && StageNode(ReadyForConfirmation) !in nodes[..w]
    ensures var history := History(nodes, search);
            && ReadyForConfirmation in history
            && (history[|history| - 1] == ReadyForConfirmation <==> NoNewStage(nodes, w))
  {
    ReadyStaysLastExactly(nodes, w, search);
    HistoryOfKinds(nodes, search);
    HistoryGrows(nodes, w, search);
    NewStagesShow(nodes, w, search);
    SameStages(History(nodes[..w + 1], search), History(nodes, search));
  }

  lemma {:induction false} HistoryGrows(nodes: seq<NodeKind>, w: nat, search: seq<Stage>)
    requires FromNodes(nodes) && w < |nodes| && forall stage | stage in search :: IsSearchStage(stage)
    requires nodes[w] == StageNode(ReadyForConfirmation) && StageNode(ReadyForConfirmation) !in nodes[..w]
    ensures History(nodes[..w + 1], search) <= History(nodes, search)
  {
    assert nodes[..w + 1] == nodes[..w] + [nodes[w]];
    ReadyIsLastAtFirstWait(nodes[..w], search);
    VisitGrows(nodes, search, w + 1);
    OnlyExtends(Visit(nodes, search).0, search);
    PrefixOfPrefix(History(nodes[..w + 1], search), Visit(nodes, search).0, History(nodes, search));
  }

  lemma {:induction false} ShownLast(history: seq<Stage>, current: Stage)
    requires NoDuplicates(history)
    ensures var shown := AppendUnique(history, current);
            shown[|shown| - 1] == current <==> current !in history || history[|history| - 1] == current
  {
  }

  lemma {:induction false} WaitsFirst(nodes: seq<string>, w: nat)
    requires IsFirstWait(nodes, w) && w < |nodes|
    ensures KindsOf(nodes)[w] == StageNode(ReadyForConfirmation)
    ensures StageNode(ReadyForConfirmation) !in KindsOf(nodes)[..w]
  {
    WaitKind(nodes[w]);
    WaitsAlike(nodes[..w]);
    assert KindsOf(nodes)[..w] == KindsOf(nodes[..w]);
  }

  /**
   * The current stage is the last step of the history, with one exception: a run that waits for confirmation and whose
   * nodes reached a stage for the first time after the wait began.
   */
  lemma {:induction false} CurrentIsLastExactly(e: Evidence, nodes: seq<string>, events: seq<ToolEvent>)
    ensures var history := History(KindsOf(nodes), SearchStages(events));
            var current := CurrentStage(e, nodes, history);
            var shown := AppendUnique(history, current);
            shown[|shown| - 1] == current <==> HasExecuted(e) || !NewStageAfterWait(nodes, FirstWait(nodes))
  {
    var w := FirstWait(nodes);
    var history := History(KindsOf(nodes), SearchStages(events));
    ExecutedExactly(e);
    StagesOfHistory(nodes, events, w);
    ShownLast(history, CurrentStage(e, nodes, history));
    CurrentIsKnown(e, nodes, w, history);
  }

  lemma {:induction false} StagesOfHistory(nodes: seq<string>, events: seq<ToolEvent>, w: nat)
    requires IsFirstWait(nodes, w)
    ensures var history := History(KindsOf(nodes), SearchStages(events));
            && NoDuplicates(history)
            && ExecutingConfirmedActions !in history
            && (ReadyForConfirmation in history <==> w < |nodes|)
            && (w < |nodes| ==> (history[|history| - 1] == ReadyForConfirmation <==> !NewStageAfterWait(nodes, w)))
  {
    HistoryLaws(nodes, events);
    SearchStagesAreSearches(events);
    KindsAreFromNodes(nodes);
    NeverExecuting(KindsOf(nodes), SearchStages(events));
    ReadyInHistory(nodes, w, SearchStages(events));
  }

  /**
   * Of the history: confirmation stands in it exactly when there was a wait, and last when nothing new came after that.
   */
  lemma {:induction false} ReadyInHistory(nodes: seq<string>, w: nat, search: seq<Stage>)
    requires IsFirstWait(nodes, w) && FromNodes(KindsOf(nodes))
    requires forall stage | stage in search :: IsSearchStage(stage)
    ensures var history := History(KindsOf(nodes), search);
            && (ReadyForConfirmation in history <==> w < |nodes|)
            && (w < |nodes| ==> (history[|history| - 1] == ReadyForConfirmation <==> !NewStageAfterWait(nodes, w)))
  {
    if w < |nodes| {
      WaitsFirst(nodes, w);
      ReadyStaysLast(KindsOf(nodes), w, search);
      NewStageIsReached(nodes, w);
    } else {
      assert nodes[..w] == nodes;
      WaitsAlike(nodes);
      HistoryOfKinds(KindsOf(nodes), search);
    }
  }

  /** Which stages can be current: the execution, confirmation, the last of the history, or one without a history. */
  lemma {:induction false} CurrentIsKnown(e: Evidence, nodes: seq<string>, w: nat, history: seq<Stage>)
    requires IsFirstWait(nodes, w)
    ensures var current := CurrentStage(e, nodes, history);
            && (DidExecute(e) ==> current.ExecutingConfirmedActions?)
            && (!DidExecute(e) ==>
                  || current.ReadyForConfirmation?
                  || (w == |nodes| && if history != [] then current == history[|history| - 1] else true))
  {
    if w == |nodes| {
      assert nodes[..w] == nodes;
    } else {
      assert nodes[w] in nodes;
    }
  }

  lemma {:induction false} ReviewKinds()
    ensures KindOf("final_review") == KindOf("apply_recovery") == StageNode(ReviewingPlan)
  {
    assert |"final_review"| == 12 && |"apply_recovery"| == 14;
    assert |"initialize"| == 10 && |"parse_intent"| == 12 && |"load_memory"| == 11 && |"generate_queries"| == 16;
    assert "final_review"[0] == 'f' && "parse_intent"[0] == 'p';
    assert |"execute_searches"| == 16 && |"populate_candidate_blackboard"| == 29;
    assert |"pre_flight_check_availability"| == 29 && |"logical_planner_agent"| == 21
      && |"route_and_time_engine"| == 21;
  }

  const WAITING := Evidence("awaiting_confirmation", [], None, None, None, None)

  /** A node that reaches a new stage after the wait, and one that does not: only then is the current stage the last. */
  lemma {:induction false} StageAfterWait()
    ensures var late, same :=
            ["wait_confirmation", "final_review"], ["final_review", "wait_confirmation", "apply_recovery"];
            && History(KindsOf(late), []) == [ReadyForConfirmation, ReviewingPlan]
            && CurrentStage(WAITING, late, History(KindsOf(late), [])) == ReadyForConfirmation
            && History(KindsOf(same), []) == [ReviewingPlan, ReadyForConfirmation]
            && CurrentStage(WAITING, same, History(KindsOf(same), [])) == ReadyForConfirmation
  {
    var late, same := ["wait_confirmation", "final_review"], ["final_review", "wait_confirmation", "apply_recovery"];
    var review, ready := StageNode(ReviewingPlan), StageNode(ReadyForConfirmation);
    ReviewKinds();
    WaitKind("wait_confirmation");
    assert KindsOf(late) == [ready, review] && KindsOf(same) == [review, ready, review];
    ReadyThenReview();
  }

  lemma {:induction false} ReadyThenReview()
    ensures var review, ready := StageNode(ReviewingPlan), StageNode(ReadyForConfirmation);
            && History([ready, review], []) == [ReadyForConfirmation, ReviewingPlan]
            && History([review, ready, review], []) == [ReviewingPlan, ReadyForConfirmation]
  {
    var review, ready := StageNode(ReviewingPlan), StageNode(ReadyForConfirmation);
    assert [ready, review] == [ready] + [review] && [review, ready] == [review] + [ready];
    assert [review, ready, review] == [review, ready] + [review];
    VisitMore([], review);
    VisitMore([], ready);
    VisitMore([ready], review);
    VisitMore([review], ready);
    VisitMore([review, ready], review);
  }

  lemma {:induction false} VisitMore(nodes: seq<NodeKind>, node: NodeKind)
    requires node.StageNode?
    ensures Visit(nodes + [node], []) == (AppendUnique(Visit(nodes, []).0, node.stage), Visit(nodes, []).1)
  {
    assert (nodes + [node])[..|nodes|] == nodes;
  }

  lemma {:induction false} NeverExecuting(nodes: seq<NodeKind>, search: seq<Stage>)
    requires FromNodes(nodes) && forall stage | stage in search :: IsSearchStage(stage)
    ensures ExecutingConfirmedActions !in History(nodes, search)
  {
    HistoryOfKinds(nodes, search);
    assert StageNode(ExecutingConfirmedActions) !in nodes;
  }

  lemma {:induction false} LastOfGrown(before: seq<Stage>, after: seq<Stage>)
    requires before != [] && before <= after && NoDuplicates(after)
    ensures before[|before| - 1] in after
    ensures after[|after| - 1] == before[|before| - 1] <==> before == after
  {
  }
}
