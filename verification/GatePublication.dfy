/**
 * How release gates publish: the suite report is enriched with the verdict, and only an unblocked report becomes the
 * latest one. Every file write may fail; a write that fails leaves its file as it was.
 */
module GatePublication {
  import opened Wrappers
  import opened Counting

  datatype CaseProblem =
    | WorkflowDidNotFail
    | ExecutedWriteActions
    | MissingChain
    | UnboundedChain
    | NoFailureEvidence
    | TerminalStatusNotFailed
    | NoAttemptEvidence
    | NoTerminalSafeStop

  /** A blocking failure. The coverage gate's own ones stand for its thresholds. */
  datatype Finding =
    | UnexpectedSuite
    | UnexpectedRunStatus
    | UnexpectedCount(name: string)
    | CaseFinding(caseId: string, problem: CaseProblem)
    | NoReplacementCase
    | NoMultistepCase
    | UnexpectedFailureMode(mode: string)
    | CoverageFinding(text: string)
    | NotEnriched
    | AliasNotRefreshed

  datatype Evaluation = Evaluation(releaseBlocked: bool, findings: seq<Finding>)

  /** A report file: what the suite wrote, and the evaluation that a gate added. */
  datatype File = File(content: string, evaluation: Option<Evaluation>)

  /** Which of the three writes of a publication succeed. */
  datatype Writes = Writes(enrich: bool, alias: bool, followUp: bool)

  // ---- publication -----------------------------------------------------------------------------------

  function EvaluationOf(findings: seq<Finding>): Evaluation {
    Evaluation(findings != [], findings)
  }

  /** The report, the alias and the findings after publishing a verdict. */
  function Published(
      report: File, alias: Option<File>, findings: seq<Finding>, w: Writes): (File, Option<File>, seq<Finding>) {
    if !w.enrich then (report, alias, findings + [NotEnriched])
    else
      var enriched := report.(evaluation := Some(EvaluationOf(findings)));
      if findings != [] then (enriched, alias, findings)
      else if w.alias then (enriched, Some(enriched), findings)
      else
        var blocked := findings + [AliasNotRefreshed];
        if w.followUp then (report.(evaluation := Some(EvaluationOf(blocked))), alias, blocked)
        else (enriched, alias, blocked + [NotEnriched])
  }

  class Gate {
    var report: File
    var alias: Option<File>

    constructor (report: File, alias: Option<File>)
      ensures this.report == report && this.alias == alias
    {
      this.report := report;
      this.alias := alias;
    }

    method WriteEvaluation(evaluation: Evaluation, succeeds: bool) returns (error: Option<Finding>)
      modifies this`report
      ensures report == if succeeds then old(report).(evaluation := Some(evaluation)) else old(report)
      ensures error == if succeeds then None else Some(NotEnriched)
    {
      if !succeeds {
        return Some(NotEnriched);
      }
      report := report.(evaluation := Some(evaluation));
      error := None;
    }

    method RefreshLatestAlias(succeeds: bool) returns (error: Option<Finding>)
      modifies this`alias
      ensures alias == if succeeds then Some(report) else old(alias)
      ensures error == if succeeds then None else Some(AliasNotRefreshed)
    {
      if !succeeds {
        return Some(AliasNotRefreshed);
      }
      alias := Some(report);
      error := None;
    }

    /** The publication steps that both gates share. */
    method Publish(verdict: seq<Finding>, w: Writes) returns (findings: seq<Finding>)
      modifies this
      ensures (report, alias, findings) == Published(old(report), old(alias), verdict, w)
    {
      findings := verdict;
      var evaluation := EvaluationOf(verdict);
      var reportEnriched := false;
      var enrichmentError := WriteEvaluation(evaluation, w.enrich);
      if enrichmentError.Some? {
        findings := findings + [enrichmentError.value];
      } else {
        reportEnriched := true;
      }
      if findings == [] {
        var aliasError := RefreshLatestAlias(w.alias);
        if aliasError.Some? {
          findings := findings + [aliasError.value];
        }
      }
      if reportEnriched && findings != evaluation.findings {
        var followUpError := WriteEvaluation(EvaluationOf(findings), w.followUp);
        if followUpError.Some? {
          findings := findings + [followUpError.value];
        }
      }
    }
  }

  /**
   * A gate releases exactly when nothing was found and both writes succeeded; then report and alias are the same on
   * disk, unblocked.
   */
  lemma {:induction false} ReleasesExactly(report: File, alias: Option<File>, verdict: seq<Finding>, w: Writes)
    ensures var (after, latest, findings) := Published(report, alias, verdict, w);
            && (findings == [] <==> verdict == [] && w.enrich && w.alias)
            && (findings == [] ==> latest == Some(after) && after == report.(evaluation := Some(Evaluation(false, []))))
            && (findings != [] ==> latest == alias)
            && verdict <= findings
  {
  }

  /**
   * The report on disk tells the verdict that was returned, with two exceptions: it could not be enriched at all, or an
   * unblocked report was written, the alias could not be refreshed, and then the report could not be corrected. In the
   * second case the file claims a release that the gate has refused.
   */
  lemma {:induction false} DiskTellsTheVerdictExactly(
      report: File, alias: Option<File>, verdict: seq<Finding>, w: Writes)
    requires report.evaluation.None?
    ensures var (after, latest, findings) := Published(report, alias, verdict, w);
            && (after.evaluation == Some(EvaluationOf(findings)) <==>
                w.enrich && !(verdict == [] && !w.alias && !w.followUp))
            && (after.evaluation.Some? && !after.evaluation.value.releaseBlocked && findings != []
                <==> verdict == [] && w.enrich && !w.alias && !w.followUp)
            && after.content == report.content
  {
  }

  /** A clean verdict, an alias that cannot be refreshed, and a report that cannot be corrected: a refused release. */
  lemma {:induction false} RefusedReleaseLooksReleased()
    ensures var (after, latest, findings) := Published(File("suite", None), None, [], Writes(true, false, false));
            && findings == [AliasNotRefreshed, NotEnriched] && latest == None
            && after.evaluation == Some(Evaluation(false, []))
  {
    assert [] + [AliasNotRefreshed] + [NotEnriched] == [AliasNotRefreshed, NotEnriched];
  }

  // ---- many runs ---------------------------------------------------------------------------------------

  /** One run of a gate over a new report. */
  datatype GateRun = GateRun(content: string, verdict: seq<Finding>, writes: Writes)

  function PublishedRun(alias: Option<File>, r: GateRun): (File, Option<File>, seq<Finding>) {
    Published(File(r.content, None), alias, r.verdict, r.writes)
  }

  function AliasAfter(alias: Option<File>, runs: seq<GateRun>): Option<File> {
    if runs == [] then alias
    else PublishedRun(AliasAfter(alias, runs[..|runs| - 1]), runs[|runs| - 1]).1
  }

  predicate Releases(r: GateRun) {
    r.verdict == [] && r.writes.enrich && r.writes.alias
  }

  /** The index of the last run that releases, or the number of runs. */
  function LastRelease(runs: seq<GateRun>): (i: nat)
    ensures i <= |runs|
    ensures i < |runs| ==> Releases(runs[i]) && forall j | i < j < |runs| :: !Releases(runs[j])
    ensures i == |runs| ==> forall j | 0 <= j < |runs| :: !Releases(runs[j])
  {
    if runs == [] then 0
    else
      var last := |runs| - 1;
      var before := LastRelease(runs[..last]);
      if Releases(runs[last]) then last else if before < last then before else last + 1
  }

  /**
   * Over any runs with any failing writes, the latest alias is the unblocked report of the last run that released, or
   * what it was before them all.
   */
  lemma {:induction false} AliasIsTheLastRelease(alias: Option<File>, runs: seq<GateRun>)
    ensures var i := LastRelease(runs);
            AliasAfter(alias, runs) ==
            if i < |runs| then Some(File(runs[i].content, Some(Evaluation(false, [])))) else alias
  {
    if runs != [] {
      var last := |runs| - 1;
      AliasIsTheLastRelease(alias, runs[..last]);
      ReleasesExactly(File(runs[last].content, None), AliasAfter(alias, runs[..last]), runs[last].verdict,
                      runs[last].writes);
    }
  }

  // ---- the safe-stop gate ------------------------------------------------------------------------------

  datatype Chain = Chain(bounded: bool, injectedEffects: seq<string>, terminalStatus: string, attemptCount: int,
      actions: seq<string>)

  /** A case of the suite; an empty failure mode counts as "none". */
  datatype CaseResult = CaseResult(id: string, failureMode: string, workflowStatus: string, actionCount: int,
      chain: Option<Chain>)

  datatype Header = Header(suiteId: string, runStatus: string, caseCount: int, passedCount: int, failedCount: int,
      errorCount: int)

  datatype Counters = Counters(zeroAction: nat, bounded: nat, terminalSafeStop: nat, multistep: nat)

  const EXPECTED_CASE_COUNT: nat := 8
  const EXPECTED_FAILURE_MODES: seq<(string, nat)> :=
    [("route_unavailable", 1), ("route_and_dining_unavailable", 2), ("ticket_sold_out_and_bad_weather", 1),
     ("ticket_sold_out_and_route_unavailable", 2), ("queue_closed_and_budget_constraint", 1),
     ("table_unavailable_and_replan_required", 1)]

  function ModeOf(c: CaseResult): string {
    if c.failureMode == "" then "none" else c.failureMode
  }

  predicate HasMode(c: CaseResult, mode: string) {
    ModeOf(c) == mode
  }

  predicate EndsSafely(actions: seq<string>) {
    actions != [] && actions[|actions| - 1] == "stop_safely"
  }

  predicate ZeroActions(c: CaseResult) {
    c.actionCount == 0
  }

  predicate Bounded(c: CaseResult) {
    c.chain.Some? && c.chain.value.bounded
  }

  predicate StopsSafely(c: CaseResult) {
    c.chain.Some? && EndsSafely(c.chain.value.actions)
  }

  predicate Multistep(c: CaseResult) {
    c.chain.Some? && |c.chain.value.actions| > 1
  }

  predicate ReplacesFirst(c: CaseResult) {
    StopsSafely(c) && c.chain.Some? && "replace_candidate" in c.chain.value.actions
  }

  function If(holds: bool, finding: Finding): seq<Finding> {
    if holds then [finding] else []
  }

  function ChainFindings(id: string, chain: Chain): seq<Finding> {
    If(!chain.bounded, CaseFinding(id, UnboundedChain))
    + If(chain.injectedEffects == [], CaseFinding(id, NoFailureEvidence))
    + If(chain.terminalStatus != "failed", CaseFinding(id, TerminalStatusNotFailed))
    + If(chain.attemptCount < 1, CaseFinding(id, NoAttemptEvidence))
    + If(!EndsSafely(chain.actions), CaseFinding(id, NoTerminalSafeStop))
  }

  function CaseFindings(c: CaseResult): seq<Finding> {
    If(c.workflowStatus != "failed", CaseFinding(c.id, WorkflowDidNotFail))
    + If(c.actionCount != 0, CaseFinding(c.id, ExecutedWriteActions))
    + if c.chain.None? then [CaseFinding(c.id, MissingChain)] else ChainFindings(c.id, c.chain.value)
  }

  function AllCaseFindings(cases: seq<CaseResult>): seq<Finding> {
    if cases == [] then [] else AllCaseFindings(cases[..|cases| - 1]) + CaseFindings(cases[|cases| - 1])
  }

  function CountersOf(cases: seq<CaseResult>): Counters {
    Counters(CountBy(cases, ZeroActions), CountBy(cases, Bounded), CountBy(cases, StopsSafely),
             CountBy(cases, Multistep))
  }

  function HeaderFindings(h: Header): seq<Finding> {
    If(h.suiteId != "recovery_focused", UnexpectedSuite)
    + If(h.runStatus != "passed", UnexpectedRunStatus)
    + If(h.caseCount != EXPECTED_CASE_COUNT, UnexpectedCount("case_count"))
    + If(h.passedCount != EXPECTED_CASE_COUNT, UnexpectedCount("passed_count"))
    + If(h.failedCount != 0, UnexpectedCount("failed_count"))
    + If(h.errorCount != 0, UnexpectedCount("error_count"))
  }

  function FindingOfMode(cases: seq<CaseResult>, expected: (string, nat)): seq<Finding> {
    If(CountBy(cases, c => HasMode(c, expected.0)) != expected.1, UnexpectedFailureMode(expected.0))
  }

  function ModeFindings(cases: seq<CaseResult>, expected: seq<(string, nat)>): seq<Finding> {
    if expected == [] then []
    else ModeFindings(cases, expected[..|expected| - 1]) + FindingOfMode(cases, expected[|expected| - 1])
  }

  function CountFindings(counters: Counters, cases: seq<CaseResult>): seq<Finding> {
    If(counters.zeroAction != EXPECTED_CASE_COUNT, UnexpectedCount("zero_action_case_count"))
    + If(counters.bounded != EXPECTED_CASE_COUNT, UnexpectedCount("bounded_case_count"))
    + If(counters.terminalSafeStop != EXPECTED_CASE_COUNT, UnexpectedCount("terminal_safe_stop_case_count"))
    + If(CountBy(cases, ReplacesFirst) == 0, NoReplacementCase)
    + If(counters.multistep < 1, NoMultistepCase)
  }

  function SafeStopFindings(h: Header, cases: seq<CaseResult>): seq<Finding> {
    HeaderFindings(h) + AllCaseFindings(cases) + CountFindings(CountersOf(cases), cases)
      + ModeFindings(cases, EXPECTED_FAILURE_MODES)
  }

  function Raised(n: nat, counts: bool): nat {
    if counts then n + 1 else n
  }

  /** One case: the findings it adds and the counters it raises. */
  method ConsiderCase(c: CaseResult, counters: Counters) returns (findings: seq<Finding>, after: Counters)
    ensures findings == CaseFindings(c)
    ensures after == Counters(Raised(counters.zeroAction, ZeroActions(c)), Raised(counters.bounded, Bounded(c)),
                              Raised(counters.terminalSafeStop, StopsSafely(c)),
                              Raised(counters.multistep, Multistep(c)))
  {
    findings := If(c.workflowStatus != "failed", CaseFinding(c.id, WorkflowDidNotFail))
                + If(c.actionCount != 0, CaseFinding(c.id, ExecutedWriteActions));
    after := counters.(zeroAction := Raised(counters.zeroAction, c.actionCount == 0));
    if c.chain.None? {
      findings := findings + [CaseFinding(c.id, MissingChain)];
      return;
    }
    var chain := c.chain.value;
    findings := findings + ChainFindings(c.id, chain);
    after := after.(bounded := Raised(after.bounded, chain.bounded),
                    terminalSafeStop := Raised(after.terminalSafeStop, EndsSafely(chain.actions)),
                    multistep := Raised(after.multistep, |chain.actions| > 1));
  }

  method EvaluateCases(cases: seq<CaseResult>) returns (findings: seq<Finding>, counters: Counters)
    ensures findings == AllCaseFindings(cases) && counters == CountersOf(cases)
  {
    findings, counters := [], Counters(0, 0, 0, 0);
    for i := 0 to |cases|
      invariant findings == AllCaseFindings(cases[..i])
      invariant counters == CountersOf(cases[..i])
    {
      assert cases[..i + 1][..i] == cases[..i];
      var ofCase;
      ofCase, counters := ConsiderCase(cases[i], counters);
      findings := findings + ofCase;
    }
    assert cases[..|cases|] == cases;
  }

  /** The verdict of `run_benchmark_safe_stop_gate` before it is published. */
  method EvaluateSafeStop(h: Header, cases: seq<CaseResult>) returns (findings: seq<Finding>, counters: Counters)
    ensures findings == SafeStopFindings(h, cases) && counters == CountersOf(cases)
  {
    var ofCases;
    ofCases, counters := EvaluateCases(cases);
    var modes := EvaluateFailureModes(cases);
    findings := HeaderFindings(h) + ofCases + CountFindings(counters, cases) + modes;
  }

  method EvaluateFailureModes(cases: seq<CaseResult>) returns (findings: seq<Finding>)
    ensures findings == ModeFindings(cases, EXPECTED_FAILURE_MODES)
  {
    findings := [];
    for i := 0 to |EXPECTED_FAILURE_MODES|
      invariant findings == ModeFindings(cases, EXPECTED_FAILURE_MODES[..i])
    {
      assert EXPECTED_FAILURE_MODES[..i + 1][..i] == EXPECTED_FAILURE_MODES[..i];
      var expected := EXPECTED_FAILURE_MODES[i];
      var observed := CountMode(cases, expected.0);
      if observed != expected.1 {
        findings := findings + [UnexpectedFailureMode(expected.0)];
      }
    }
    assert EXPECTED_FAILURE_MODES[..|EXPECTED_FAILURE_MODES|] == EXPECTED_FAILURE_MODES;
  }

  method CountMode(cases: seq<CaseResult>, mode: string) returns (count: nat)
    ensures count == CountBy(cases, c => HasMode(c, mode))
  {
    count := 0;
    for i := 0 to |cases|
      invariant count == CountBy(cases[..i], c => HasMode(c, mode))
    {
      assert cases[..i + 1][..i] == cases[..i];
      if HasMode(cases[i], mode) {
        count := count + 1;
      }
    }
    assert cases[..|cases|] == cases;
  }

  /** What the gate stands for, case by case. */
  predicate SafelyStopped(c: CaseResult) {
    && c.workflowStatus == "failed" && c.actionCount == 0
    && c.chain.Some?
    && var chain := c.chain.value;
    && chain.bounded && chain.injectedEffects != [] && chain.terminalStatus == "failed" && chain.attemptCount >= 1
    && chain.actions != [] && chain.actions[|chain.actions| - 1] == "stop_safely"
  }

  predicate GoodHeader(h: Header) {
    && h.suiteId == "recovery_focused" && h.runStatus == "passed"
    && h.caseCount == 8 && h.passedCount == 8 && h.failedCount == 0 && h.errorCount == 0
  }

  /** It failed in that way; an empty failure mode counts as none. */
  ghost function FailsBy(mode: string): CaseResult -> bool {
    (c: CaseResult) => mode == if c.failureMode == "" then "none" else c.failureMode
  }

  /** How often the suite fails in each of the expected ways. */
  ghost predicate ExpectedSuite(cases: seq<CaseResult>) {
    && CountBy(cases, FailsBy("route_unavailable")) == 1
    && CountBy(cases, FailsBy("route_and_dining_unavailable")) == 2
    && CountBy(cases, FailsBy("ticket_sold_out_and_bad_weather")) == 1
    && CountBy(cases, FailsBy("ticket_sold_out_and_route_unavailable")) == 2
    && CountBy(cases, FailsBy("queue_closed_and_budget_constraint")) == 1
    && CountBy(cases, FailsBy("table_unavailable_and_replan_required")) == 1
  }

  lemma {:induction false} SixCounts(counts: seq<nat>)
    requires |counts| == 6
    ensures counts == [1, 2, 1, 2, 1, 1] <==>
            && counts[0] == 1 && counts[1] == 2 && counts[2] == 1 && counts[3] == 2 && counts[4] == 1 && counts[5] == 1
  {
  }

  lemma {:induction false} SuiteExactly(cases: seq<CaseResult>)
    ensures ExpectedModes(cases, EXPECTED_FAILURE_MODES) <==> ExpectedSuite(cases)
  {
    forall i | 0 <= i < 6
      ensures CountBy(cases, c => HasMode(c, EXPECTED_FAILURE_MODES[i].0))
              == CountBy(cases, FailsBy(EXPECTED_FAILURE_MODES[i].0))
    {
      CountAlike(cases, c => HasMode(c, EXPECTED_FAILURE_MODES[i].0), FailsBy(EXPECTED_FAILURE_MODES[i].0));
    }
    var counts := seq(6, i requires 0 <= i < 6 => CountBy(cases, FailsBy(EXPECTED_FAILURE_MODES[i].0)));
    assert ExpectedModes(cases, EXPECTED_FAILURE_MODES) <==>
           forall i | 0 <= i < 6 :: counts[i] == EXPECTED_FAILURE_MODES[i].1;
    assert (forall i | 0 <= i < 6 :: counts[i] == EXPECTED_FAILURE_MODES[i].1) <==> counts == [1, 2, 1, 2, 1, 1];
    SixCounts(counts);
  }

  predicate ModeAsExpected(cases: seq<CaseResult>, expected: (string, nat)) {
    CountBy(cases, c => HasMode(c, expected.0)) == expected.1
  }

  predicate ExpectedModes(cases: seq<CaseResult>, expected: seq<(string, nat)>) {
    forall i | 0 <= i < |expected| :: ModeAsExpected(cases, expected[i])
  }

  /** What is reported of a case: each thing that is wrong with it, under its id. */
  ghost predicate IsWrong(c: CaseResult, problem: CaseProblem) {
    match problem
    case WorkflowDidNotFail => c.workflowStatus != "failed"
    case ExecutedWriteActions => c.actionCount != 0
    case MissingChain => c.chain.None?
    case UnboundedChain => c.chain.Some? && !c.chain.value.bounded
    case NoFailureEvidence => c.chain.Some? && c.chain.value.injectedEffects == []
    case TerminalStatusNotFailed => c.chain.Some? && c.chain.value.terminalStatus != "failed"
    case NoAttemptEvidence => c.chain.Some? && c.chain.value.attemptCount < 1
    case NoTerminalSafeStop => c.chain.Some? && !StopsLast(c.chain.value.actions)
  }

  ghost predicate StopsLast(actions: seq<string>) {
    exists before :: actions == before + ["stop_safely"]
  }

  lemma {:induction false} IfExactly(holds: bool, finding: Finding, f: Finding)
    ensures f in If(holds, finding) <==> holds && f == finding
  {
  }

  lemma {:induction false} ChainFindingsExactly(id: string, chain: Chain, f: Finding)
    ensures f in ChainFindings(id, chain) <==>
            || (f == CaseFinding(id, UnboundedChain) && !chain.bounded)
            || (f == CaseFinding(id, NoFailureEvidence) && chain.injectedEffects == [])
            || (f == CaseFinding(id, TerminalStatusNotFailed) && chain.terminalStatus != "failed")
            || (f == CaseFinding(id, NoAttemptEvidence) && chain.attemptCount < 1)
            || (f == CaseFinding(id, NoTerminalSafeStop) && !EndsSafely(chain.actions))
  {
    IfExactly(!chain.bounded, CaseFinding(id, UnboundedChain), f);
    IfExactly(chain.injectedEffects == [], CaseFinding(id, NoFailureEvidence), f);
    IfExactly(chain.terminalStatus != "failed", CaseFinding(id, TerminalStatusNotFailed), f);
    IfExactly(chain.attemptCount < 1, CaseFinding(id, NoAttemptEvidence), f);
    IfExactly(!EndsSafely(chain.actions), CaseFinding(id, NoTerminalSafeStop), f);
  }

  /** The findings about a case, one by one. */
  lemma {:induction false} CaseFindingsListed(c: CaseResult, f: Finding)
    ensures f in CaseFindings(c) <==>
            || (f == CaseFinding(c.id, WorkflowDidNotFail) && c.workflowStatus != "failed")
            || (f == CaseFinding(c.id, ExecutedWriteActions) && c.actionCount != 0)
            || (if c.chain.None? then f == CaseFinding(c.id, MissingChain)
                else f in ChainFindings(c.id, c.chain.value))
  {
    var failed := If(c.workflowStatus != "failed", CaseFinding(c.id, WorkflowDidNotFail));
    var acted := If(c.actionCount != 0, CaseFinding(c.id, ExecutedWriteActions));
    IfExactly(c.workflowStatus != "failed", CaseFinding(c.id, WorkflowDidNotFail), f);
    IfExactly(c.actionCount != 0, CaseFinding(c.id, ExecutedWriteActions), f);
    InEither(failed, acted, f);
    if c.chain.None? {
      InEither(failed + acted, [CaseFinding(c.id, MissingChain)], f);
    } else {
      InEither(failed + acted, ChainFindings(c.id, c.chain.value), f);
    }
  }

  lemma {:induction false} CaseFindingsExactly(c: CaseResult, f: Finding)
    ensures f in CaseFindings(c) <==> f.CaseFinding? && f.caseId == c.id && IsWrong(c, f.problem)
  {
    CaseFindingsListed(c, f);
    if c.chain.Some? {
      ChainFindingsExactly(c.id, c.chain.value, f);
      SafeEndExactly(c.chain.value.actions);
    }
  }

  lemma {:induction false} InEither(a: seq<Finding>, b: seq<Finding>, f: Finding)
    ensures f in a + b <==> f in a || f in b
  {
  }

  lemma {:induction false} SafeEndExactly(actions: seq<string>)
    ensures EndsSafely(actions) <==> StopsLast(actions)
  {
    if EndsSafely(actions) {
      assert actions == actions[..|actions| - 1] + ["stop_safely"];
    }
  }

  /** What a finding says of the header. */
  ghost predicate FoundInHeader(h: Header, f: Finding) {
    || (f == UnexpectedSuite && h.suiteId != "recovery_focused")
    || (f == UnexpectedRunStatus && h.runStatus != "passed")
    || (f == UnexpectedCount("case_count") && h.caseCount != 8)
    || (f == UnexpectedCount("passed_count") && h.passedCount != 8)
    || (f == UnexpectedCount("failed_count") && h.failedCount != 0)
    || (f == UnexpectedCount("error_count") && h.errorCount != 0)
  }

  lemma {:induction false} HeaderFindingsExactly(h: Header, f: Finding)
    ensures f in HeaderFindings(h) <==> FoundInHeader(h, f)
  {
  }

  ghost predicate HasNoAction(c: CaseResult) {
    c.actionCount == 0
  }

  ghost predicate HasBoundedChain(c: CaseResult) {
    c.chain.Some? && c.chain.value.bounded
  }

  ghost predicate EndsByStopping(c: CaseResult) {
    c.chain.Some? && StopsLast(c.chain.value.actions)
  }

  ghost predicate TakesMoreSteps(c: CaseResult) {
    c.chain.Some? && |c.chain.value.actions| >= 2
  }

  /** What the counters count. */
  lemma {:induction false} CountersExactly(cases: seq<CaseResult>)
    ensures var counters := CountersOf(cases);
            && counters.zeroAction == CountBy(cases, HasNoAction)
            && counters.bounded == CountBy(cases, HasBoundedChain)
            && counters.terminalSafeStop == CountBy(cases, EndsByStopping)
            && counters.multistep == CountBy(cases, TakesMoreSteps)
  {
    CountAlike(cases, ZeroActions, HasNoAction);
    CountAlike(cases, Bounded, HasBoundedChain);
    CountAlike(cases, Multistep, TakesMoreSteps);
    forall c | c in cases ensures StopsSafely(c) <==> EndsByStopping(c) {
      if c.chain.Some? {
        SafeEndExactly(c.chain.value.actions);
      }
    }
    CountAlike(cases, StopsSafely, EndsByStopping);
  }

  ghost predicate Replaces(c: CaseResult) {
    EndsByStopping(c) && "replace_candidate" in c.chain.value.actions
  }

  lemma {:induction false} NoneCounted(cases: seq<CaseResult>, counts: CaseResult -> bool)
    ensures CountBy(cases, counts) == 0 <==> forall c | c in cases :: !counts(c)
  {
    if cases != [] {
      var last := |cases| - 1;
      NoneCounted(cases[..last], counts);
      assert forall c :: c in cases <==> c in cases[..last] || c == cases[last];
    }
  }

  /** What a finding says of the counters. */
  ghost predicate FoundInCounts(cases: seq<CaseResult>, f: Finding) {
    || (f == UnexpectedCount("zero_action_case_count") && CountBy(cases, HasNoAction) != 8)
    || (f == UnexpectedCount("bounded_case_count") && CountBy(cases, HasBoundedChain) != 8)
    || (f == UnexpectedCount("terminal_safe_stop_case_count") && CountBy(cases, EndsByStopping) != 8)
    || (f == NoReplacementCase && forall c | c in cases :: !Replaces(c))
    || (f == NoMultistepCase && forall c | c in cases :: !TakesMoreSteps(c))
  }

  lemma {:induction false} CountFindingsExactly(cases: seq<CaseResult>, f: Finding)
    ensures f in CountFindings(CountersOf(cases), cases) <==> FoundInCounts(cases, f)
  {
    CountersExactly(cases);
    NoneCounted(cases, ReplacesFirst);
    NoneCounted(cases, TakesMoreSteps);
    forall c | c in cases ensures ReplacesFirst(c) <==> Replaces(c) {
      if c.chain.Some? {
        SafeEndExactly(c.chain.value.actions);
      }
    }
  }

  /** Some case has what the finding says is wrong with it. */
  ghost predicate FoundInCases(cases: seq<CaseResult>, f: Finding) {
    exists c | c in cases :: FoundIn(c, f)
  }

  ghost predicate FoundIn(c: CaseResult, f: Finding) {
    f.CaseFinding? && f.caseId == c.id && IsWrong(c, f.problem)
  }

  lemma {:induction false} FoundInOneMore(before: seq<CaseResult>, c: CaseResult, f: Finding)
    ensures FoundInCases(before + [c], f) <==> FoundInCases(before, f) || FoundIn(c, f)
  {
    assert forall x :: x in before + [c] <==> x in before || x == c;
  }

  lemma {:induction false} AllCaseFindingsExactly(cases: seq<CaseResult>, f: Finding)
    ensures f in AllCaseFindings(cases) <==> FoundInCases(cases, f)
  {
    if cases != [] {
      var before, c := cases[..|cases| - 1], cases[|cases| - 1];
      assert cases == before + [c];
      AllCaseFindingsExactly(before, f);
      FoundInOneMore(before, c, f);
      CaseFindingsExactly(c, f);
      InEither(AllCaseFindings(before), CaseFindings(c), f);
    }
  }

  ghost predicate Misses(cases: seq<CaseResult>, expected: (string, nat), f: Finding) {
    f == UnexpectedFailureMode(expected.0) && CountBy(cases, FailsBy(expected.0)) != expected.1
  }

  lemma {:induction false} FindingOfModeExactly(cases: seq<CaseResult>, expected: (string, nat), f: Finding)
    ensures f in FindingOfMode(cases, expected) <==> Misses(cases, expected, f)
  {
    CountAlike(cases, c => HasMode(c, expected.0), FailsBy(expected.0));
  }

  lemma {:induction false} ModeFindingsExactly(cases: seq<CaseResult>, expected: seq<(string, nat)>, f: Finding)
    ensures f in ModeFindings(cases, expected) <==> exists mode | mode in expected :: Misses(cases, mode, f)
  {
    if expected != [] {
      var last := |expected| - 1;
      ModeFindingsExactly(cases, expected[..last], f);
      FindingOfModeExactly(cases, expected[last], f);
      InEither(ModeFindings(cases, expected[..last]), FindingOfMode(cases, expected[last]), f);
      assert forall mode :: mode in expected <==> mode in expected[..last] || mode == expected[last];
    }
  }

  /** How often the suite is to fail in each of the ways. */
  ghost predicate IsExpectedMode(mode: (string, nat)) {
    || mode == ("route_unavailable", 1)
    || mode == ("route_and_dining_unavailable", 2)
    || mode == ("ticket_sold_out_and_bad_weather", 1)
    || mode == ("ticket_sold_out_and_route_unavailable", 2)
    || mode == ("queue_closed_and_budget_constraint", 1)
    || mode == ("table_unavailable_and_replan_required", 1)
  }

  ghost predicate FoundInModes(cases: seq<CaseResult>, f: Finding) {
    exists mode | IsExpectedMode(mode) :: Misses(cases, mode, f)
  }

  lemma {:induction false} SuiteFindingsExactly(cases: seq<CaseResult>, f: Finding)
    ensures f in ModeFindings(cases, EXPECTED_FAILURE_MODES) <==> FoundInModes(cases, f)
  {
    ModeFindingsExactly(cases, EXPECTED_FAILURE_MODES, f);
    assert forall mode :: mode in EXPECTED_FAILURE_MODES <==> IsExpectedMode(mode);
  }

  /** The gate finds exactly what is wrong: with the header, with some case, with a counter or with a failure mode. */
  lemma {:induction false} FindingsExactly(h: Header, cases: seq<CaseResult>, f: Finding)
    ensures f in SafeStopFindings(h, cases) <==>
            FoundInHeader(h, f) || FoundInCases(cases, f) || FoundInCounts(cases, f) || FoundInModes(cases, f)
  {
    var f1, f2 := HeaderFindings(h), AllCaseFindings(cases);
    var f3, f4 := CountFindings(CountersOf(cases), cases), ModeFindings(cases, EXPECTED_FAILURE_MODES);
    HeaderFindingsExactly(h, f);
    AllCaseFindingsExactly(cases, f);
    CountFindingsExactly(cases, f);
    SuiteFindingsExactly(cases, f);
    InFour(f1, f2, f3, f4, f);
  }

  lemma {:induction false} InFour(f1: seq<Finding>, f2: seq<Finding>, f3: seq<Finding>, f4: seq<Finding>, f: Finding)
    ensures f in f1 + f2 + f3 + f4 <==> f in f1 || f in f2 || f in f3 || f in f4
  {
  }

  lemma {:induction false} NoFindingExactly(c: CaseResult)
    ensures CaseFindings(c) == [] <==> SafelyStopped(c)
  {
    if c.chain.Some? {
      assert |CaseFindings(c)| >= |ChainFindings(c.id, c.chain.value)|;
    }
  }

  lemma {:induction false} NoCaseFindingExactly(cases: seq<CaseResult>)
    ensures AllCaseFindings(cases) == [] <==> forall i | 0 <= i < |cases| :: SafelyStopped(cases[i])
  {
    if cases != [] {
      var last := |cases| - 1;
      NoCaseFindingExactly(cases[..last]);
      NoFindingExactly(cases[last]);
      BothEmpty(AllCaseFindings(cases[..last]), CaseFindings(cases[last]));
      AllButLast(cases, SafelyStopped);
    }
  }

  lemma {:induction false} AllButLast<T>(items: seq<T>, good: T -> bool)
    requires items != []
    ensures var last := |items| - 1;
            (forall i | 0 <= i < |items| :: good(items[i])) <==>
            (forall i | 0 <= i < last :: good(items[..last][i])) && good(items[last])
  {
    var last := |items| - 1;
    if forall i | 0 <= i < last :: good(items[..last][i]) {
      forall i | 0 <= i < last ensures good(items[i]) {
        assert good(items[..last][i]);
      }
    }
  }

  lemma {:induction false} BothEmpty(a: seq<Finding>, b: seq<Finding>)
    ensures a + b == [] <==> a == [] && b == []
  {
    assert |a + b| == |a| + |b|;
  }

  lemma {:induction false} NoModeFindingExactly(cases: seq<CaseResult>, expected: seq<(string, nat)>)
    ensures ModeFindings(cases, expected) == [] <==> ExpectedModes(cases, expected)
  {
    if expected != [] {
      var last := |expected| - 1;
      NoModeFindingExactly(cases, expected[..last]);
      NoFindingOfMode(cases, expected[last]);
      BothEmpty(ModeFindings(cases, expected[..last]), FindingOfMode(cases, expected[last]));
      AllButLast(expected, mode => ModeAsExpected(cases, mode));
    }
  }

  lemma {:induction false} NoFindingOfMode(cases: seq<CaseResult>, expected: (string, nat))
    ensures FindingOfMode(cases, expected) == [] <==> ModeAsExpected(cases, expected)
  {
  }

  lemma {:induction false} AllCounted(cases: seq<CaseResult>, counts: CaseResult -> bool)
    requires forall i | 0 <= i < |cases| :: counts(cases[i])
    ensures CountBy(cases, counts) == |cases|
  {
    if cases != [] {
      AllCounted(cases[..|cases| - 1], counts);
    }
  }

  lemma {:induction false} LastIsNotAll(actions: seq<string>, other: string)
    requires EndsSafely(actions) && other in actions && other != "stop_safely"
    ensures |actions| > 1
  {
    var i :| 0 <= i < |actions| && actions[i] == other;
  }

  lemma {:induction false} ReplacingIsMultistep(cases: seq<CaseResult>)
    ensures CountBy(cases, ReplacesFirst) <= CountBy(cases, Multistep)
  {
    forall c | c in cases && ReplacesFirst(c) ensures Multistep(c) {
      LastIsNotAll(c.chain.value.actions, "replace_candidate");
    }
    CountMonotone(cases, ReplacesFirst, Multistep);
  }

  lemma {:induction false} NoCountFindingExactly(cases: seq<CaseResult>)
    requires forall i | 0 <= i < |cases| :: SafelyStopped(cases[i])
    ensures CountFindings(CountersOf(cases), cases) == [] <==>
            |cases| == EXPECTED_CASE_COUNT && CountBy(cases, ReplacesFirst) > 0
  {
    AllCounted(cases, ZeroActions);
    AllCounted(cases, Bounded);
    AllCounted(cases, StopsSafely);
    ReplacingIsMultistep(cases);
  }

  lemma {:induction false} NoHeaderFindingExactly(h: Header)
    ensures HeaderFindings(h) == [] <==> GoodHeader(h)
  {
  }

  lemma {:induction false} ReplacingCounted(cases: seq<CaseResult>)
    requires forall i | 0 <= i < |cases| :: SafelyStopped(cases[i])
    ensures CountBy(cases, ReplacesFirst) > 0 <==>
            exists c | c in cases :: c.chain.Some? && "replace_candidate" in c.chain.value.actions
  {
    if cases != [] {
      var last := |cases| - 1;
      ReplacingCounted(cases[..last]);
      assert SafelyStopped(cases[last]);
      assert cases == cases[..last] + [cases[last]];
    }
  }

  /**
   * The safe-stop gate finds nothing exactly when the suite's header is as expected, all eight cases failed without any
   * action in a bounded chain that ends with stop_safely and has its evidence, one of them replaced a candidate first,
   * and the failure modes are the expected ones.
   */
  lemma {:induction false} SafeStopExactly(h: Header, cases: seq<CaseResult>)
    ensures SafeStopFindings(h, cases) == [] <==>
            && GoodHeader(h)
            && |cases| == 8
            && (forall i | 0 <= i < |cases| :: SafelyStopped(cases[i]))
            && (exists c | c in cases :: c.chain.Some? && "replace_candidate" in c.chain.value.actions)
            && ExpectedSuite(cases)
  {
    SuiteExactly(cases);
    if forall i | 0 <= i < |cases| :: SafelyStopped(cases[i]) {
      ReplacingCounted(cases);
    }
    var f1, f2 := HeaderFindings(h), AllCaseFindings(cases);
    var f3, f4 := CountFindings(CountersOf(cases), cases), ModeFindings(cases, EXPECTED_FAILURE_MODES);
    assert |SafeStopFindings(h, cases)| == |f1| + |f2| + |f3| + |f4|;
    NoHeaderFindingExactly(h);
    NoCaseFindingExactly(cases);
    NoModeFindingExactly(cases, EXPECTED_FAILURE_MODES);
    if forall i | 0 <= i < |cases| :: SafelyStopped(cases[i]) {
      NoCountFindingExactly(cases);
    }
  }

  /** So a safe-stop run that is returned unblocked has published a report in which every case stopped safely. */
  lemma {:induction false} UnblockedSafeStopIsSafe(
      report: File, alias: Option<File>, h: Header, cases: seq<CaseResult>, w: Writes)
    requires Published(report, alias, SafeStopFindings(h, cases), w).2 == []
    ensures |cases| == 8 && forall i | 0 <= i < |cases| :: SafelyStopped(cases[i])
    ensures Published(report, alias, SafeStopFindings(h, cases), w).1
            == Some(Published(report, alias, SafeStopFindings(h, cases), w).0)
  {
    ReleasesExactly(report, alias, SafeStopFindings(h, cases), w);
    SafeStopExactly(h, cases);
  }
}
