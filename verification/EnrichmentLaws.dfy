/** What an enrichment run accounts for, in which order, and what failing fast changes. */
module EnrichmentLaws {
  import opened Wrappers
  import opened JsonTrees
  import opened Counting
  import G = Gateway
  import opened Enrichment
  import opened EnrichmentJobs

  function Unusable(results: seq<ToolResult>): seq<ToolResult> {
    if results == [] then []
    else Unusable(results[..|results| - 1]) + if IsUsable(results[|results| - 1].status) then []
      else [results[|results| - 1]]
  }

  predicate IsMissingInput(r: ToolResult) {
    r.problem.Some? && r.problem.value.MissingInput?
  }

  predicate IsMalformed(r: ToolResult) {
    r.problem.Some? && r.problem.value.MalformedResponse?
  }

  lemma {:induction false} UnusableConcat(a: seq<ToolResult>, b: seq<ToolResult>)
    ensures Unusable(a + b) == Unusable(a) + Unusable(b)
  {
    if b == [] {
      assert a + b == a;
    } else {
      assert (a + b)[..|a + b| - 1] == a + b[..|b| - 1];
      UnusableConcat(a, b[..|b| - 1]);
    }
  }

  // ---- one job -------------------------------------------------------------------------------------

  /**
   * A job adds one result for its call, one for a missing input, one more for a malformed response; the unusable one is
   * its failure.
   */
  ghost predicate Accounts(done: Done) {
    && Unusable(done.results) == (if done.failure.Some? then [done.failure.value] else [])
    && |done.results| == |Listed(done.request)| + CountBy(done.results, IsMissingInput)
       + CountBy(done.results, IsMalformed)
  }

  predicate FromCall(r: ToolResult) {
    !IsMissingInput(r) && !IsMalformed(r)
  }

  lemma {:induction false} OneResult(done: Done)
    requires |done.results| == 1
    requires var r := done.results[0];
             && done.failure == (if IsUsable(r.status) then None else Some(r))
             && if done.request.Some? then FromCall(r) else IsMissingInput(r)
    ensures Accounts(done)
  {
    assert done.results[..0] == [];
  }

  lemma {:induction false} TwoResults(done: Done, told: ToolResult, failure: ToolResult)
    requires done.results == [told, failure] && done.failure == Some(failure) && done.request.Some?
    requires FromCall(told) && IsUsable(told.status) && IsMalformed(failure) && !IsUsable(failure.status)
    ensures Accounts(done)
  {
    assert done.results[..1] == [told] && [told][..0] == [];
    assert Unusable([told]) == [];
  }

  lemma {:induction false} AfterReplyAccounts(job: Job, request: Request, mode: string, reply: Reply)
    ensures Accounts(AfterReply(job, request, mode, reply))
  {
    var done := AfterReply(job, request, mode, reply);
    if |done.results| == 1 {
      OneResult(done);
    } else {
      TwoResults(done, done.results[0], done.results[1]);
    }
  }

  lemma {:induction false} PerformAccounts(job: Job, calls: seq<Request>, world: World)
    ensures Accounts(Perform(job, calls, world))
  {
    var t := job.template;
    var (payload, missing) := ResolvePayload(t, ContextOf(job));
    if missing.Some? {
      OneResult(Perform(job, calls, world));
    } else {
      var request := Request(t.tool, t.provider, payload);
      AfterReplyAccounts(job, request, PayloadMode(payload), world(calls + [request]));
    }
  }

  ghost predicate Connects(entry: RouteEntry, job: Job) {
    job.RouteJob? && entry.origin == job.origin.id && entry.destination == job.destination.id
  }

  lemma {:induction false} EntryOfReply(job: Job, request: Request, mode: string, reply: Reply)
    ensures EntrySound(AfterReply(job, request, mode, reply), job)
  {
  }

  lemma {:induction false} EntryOfJob(job: Job, calls: seq<Request>, world: World)
    ensures EntrySound(Perform(job, calls, world), job)
  {
    var t := job.template;
    var (payload, missing) := ResolvePayload(t, ContextOf(job));
    if missing.None? {
      var request := Request(t.tool, t.provider, payload);
      EntryOfReply(job, request, PayloadMode(payload), world(calls + [request]));
    }
  }

  function ObjectAt(response: Option<Json>, key: string): Option<Json> {
    if response.Some? && response.value.Obj? && Lookup(response.value.fields, key).Some?
      && Lookup(response.value.fields, key).value.Obj?
    then Lookup(response.value.fields, key) else None
  }

  /** What one result says about its candidate. */
  function AttachmentOf(r: ToolResult): Option<(string, Json)> {
    var keys := ResponseKeys(r.tool);
    if IsUsable(r.status) && keys.Some? && ObjectAt(r.response, keys.value.0).Some?
    then Some((keys.value.1, ObjectAt(r.response, keys.value.0).value)) else None
  }

  function Attach(attributes: map<string, Json>, attachment: Option<(string, Json)>): map<string, Json> {
    if attachment.Some? then attributes[attachment.value.0 := attachment.value.1] else attributes
  }

  function AttributesIn(results: seq<ToolResult>): map<string, Json> {
    if results == [] then map[]
      else Attach(AttributesIn(results[..|results| - 1]), AttachmentOf(results[|results| - 1]))
  }

  lemma {:induction false} OneMoreResult(tools: seq<ToolResult>, r: ToolResult)
    ensures AttributesIn(tools + [r]) == Attach(AttributesIn(tools), AttachmentOf(r))
  {
    assert (tools + [r])[..|tools|] == tools;
  }

  /** Only the first result of a job can set an attribute, and the job sets just that. */
  ghost predicate AttachesFirst(done: Done) {
    && (|done.results| == 1 || |done.results| == 2)
    && done.attached == AttachmentOf(done.results[0])
    && (|done.results| == 2 ==> AttachmentOf(done.results[1]).None?)
  }

  lemma {:induction false} ReplyAttachesFirst(job: Job, request: Request, mode: string, reply: Reply)
    requires job.CandidateJob?
    ensures AttachesFirst(AfterReply(job, request, mode, reply))
  {
  }

  lemma {:induction false} JobAttachesFirst(job: Job, calls: seq<Request>, world: World)
    requires job.CandidateJob?
    ensures AttachesFirst(Perform(job, calls, world))
  {
    var (payload, missing) := ResolvePayload(job.template, ContextOf(job));
    if missing.None? {
      var request := Request(job.template.tool, job.template.provider, payload);
      ReplyAttachesFirst(job, request, PayloadMode(payload), world(calls + [request]));
    }
  }

  lemma {:induction false} DoneAttaches(tools: seq<ToolResult>, done: Done)
    requires AttachesFirst(done)
    ensures AttributesIn(tools + done.results) == SetAttribute(AttributesIn(tools), done)
  {
    OneMoreResult(tools, done.results[0]);
    if |done.results| == 2 {
      OneMoreResult(tools + [done.results[0]], done.results[1]);
      assert tools + done.results == tools + [done.results[0]] + [done.results[1]];
    } else {
      assert done.results == [done.results[0]];
    }
  }

  ghost predicate EntrySound(done: Done, job: Job) {
    if job.RouteJob? then done.entry.Some? && Connects(done.entry.value, job) else done.entry.None?
  }

  /** What every job guarantees, whatever was called before it. */
  ghost predicate KeepsAccounts(perform: Performer) {
    forall job, calls :: Accounts(perform(job, calls))
  }

  ghost predicate AddsEntries(perform: Performer) {
    forall job, calls :: EntrySound(perform(job, calls), job)
  }

  lemma {:induction false} PerformingIsFaithful(world: World)
    ensures KeepsAccounts(Performing(world)) && AddsEntries(Performing(world))
  {
    forall job, calls
      ensures Accounts(Performing(world)(job, calls))
      ensures EntrySound(Performing(world)(job, calls), job)
    {
      PerformAccounts(job, calls, world);
      EntryOfJob(job, calls, world);
    }
  }

  // ---- all jobs ------------------------------------------------------------------------------------

  ghost predicate Accounted(start: Log, log: Log) {
    && Extends(start, log)
    && var tools := log.tools[|start.tools|..];
    && log.failed == start.failed + Unusable(tools)
    && |tools| == |log.calls| - |start.calls| + CountBy(tools, IsMissingInput) + CountBy(tools, IsMalformed)
  }

  lemma {:induction false} RecordedAccounted(start: Log, log: Log, done: Done, failFast: bool)
    requires Accounted(start, log) && Accounts(done)
    ensures Accounted(start, Recorded(log, done, failFast))
  {
    var tools := log.tools[|start.tools|..];
    var after := Recorded(log, done, failFast);
    RecordedExtends(start, log, done, failFast);
    RestOfAppended(log.tools, done.results, |start.tools|);
    UnusableConcat(tools, done.results);
    Reassociated(start.failed, Unusable(tools), Unusable(done.results));
    CountConcat(tools, done.results, IsMissingInput);
    CountConcat(tools, done.results, IsMalformed);
  }

  lemma {:induction false} RestOfAppended<T>(a: seq<T>, b: seq<T>, n: nat)
    requires n <= |a|
    ensures (a + b)[n..] == a[n..] + b
  {
  }

  lemma {:induction false} Reassociated<T>(a: seq<T>, b: seq<T>, c: seq<T>)
    ensures (a + b) + c == a + (b + c)
  {
  }

  lemma {:induction false} RecordedExtends(start: Log, log: Log, done: Done, failFast: bool)
    requires Extends(start, log)
    ensures Extends(start, Recorded(log, done, failFast))
  {
  }

  /**
   * Over any jobs: the results are the calls, the missing inputs and the malformed responses, and the failures are the
   * unusable ones.
   */
  lemma {:induction false} WorkAccounted(start: Log, jobs: seq<Job>, perform: Performer, failFast: bool)
    requires KeepsAccounts(perform)
    ensures Accounted(start, WorkAll(start, jobs, perform, failFast))
  {
    if jobs == [] {
      assert start.tools[|start.tools|..] == [];
    } else {
      var last := |jobs| - 1;
      WorkAccounted(start, jobs[..last], perform, failFast);
      var log := WorkAll(start, jobs[..last], perform, failFast);
      assert Accounts(perform(jobs[last], log.calls));
      RecordedAccounted(start, log, perform(jobs[last], log.calls), failFast);
    }
  }

  function ToolsOf(cs: seq<EnrichedCandidate>): seq<ToolResult> {
    if cs == [] then [] else ToolsOf(cs[..|cs| - 1]) + cs[|cs| - 1].tools
  }

  function FailedOf(cs: seq<EnrichedCandidate>): seq<ToolResult> {
    if cs == [] then [] else FailedOf(cs[..|cs| - 1]) + cs[|cs| - 1].failed
  }

  function CandidatesOf(cs: seq<EnrichedCandidate>): seq<Candidate> {
    seq(|cs|, i requires 0 <= i < |cs| => cs[i].candidate)
  }

  lemma {:induction false} ListsAppend(enriched: seq<EnrichedCandidate>, one: EnrichedCandidate)
    ensures ToolsOf(enriched + [one]) == ToolsOf(enriched) + one.tools
    ensures FailedOf(enriched + [one]) == FailedOf(enriched) + one.failed
    ensures CandidatesOf(enriched + [one]) == CandidatesOf(enriched) + [one.candidate]
  {
    assert (enriched + [one])[..|enriched|] == enriched;
  }

  ghost predicate Concatenates(start: Log, cs: seq<Candidate>, enriched: seq<EnrichedCandidate>, log: Log) {
    CandidatesOf(enriched) == cs && log.tools == start.tools + ToolsOf(enriched)
      && log.failed == start.failed + FailedOf(enriched)
  }

  lemma {:induction false} ConcatenatesOneMore(
      start: Log, cs: seq<Candidate>, enriched: seq<EnrichedCandidate>, log: Log, c: Candidate, jobs: seq<Job>,
      perform: Performer, failFast: bool)
    requires Concatenates(start, cs, enriched, log)
    ensures Concatenates(start, cs + [c], enriched + [EnrichedOf(log, c, jobs, perform, failFast)],
                         WorkAll(log, jobs, perform, failFast))
  {
    var one, after := EnrichedOf(log, c, jobs, perform, failFast), WorkAll(log, jobs, perform, failFast);
    OnlyAppends(log, jobs, perform, failFast);
    ListsAppend(enriched, one);
    SinceCompletes(start.tools, ToolsOf(enriched), log.tools, after.tools);
    SinceCompletes(start.failed, FailedOf(enriched), log.failed, after.failed);
  }

  lemma {:induction false} SinceCompletes<T>(start: seq<T>, added: seq<T>, before: seq<T>, after: seq<T>)
    requires before == start + added && before <= after
    ensures after == start + (added + Since(before, after))
  {
    assert after == before + after[|before|..];
  }

  /** The lists of the candidates of one kind, one after the other, are what their stage added. */
  lemma {:induction false} StageConcatenates(
    start: Log, cs: seq<Candidate>, templates: map<string, Template>, order: seq<string>, party: nat,
    perform: Performer, failFast: bool)
    ensures Concatenates(start, cs, EnrichedAll(start, cs, templates, order, party, perform, failFast),
                         WorkAll(start, JobsOfAll(cs, templates, order, party), perform, failFast))
  {
    if cs != [] {
      var last := |cs| - 1;
      StageConcatenates(start, cs[..last], templates, order, party, perform, failFast);
      var jobs := JobsOf(cs[last], templates, order, party);
      assert cs[..last] + [cs[last]] == cs;
      WorkAllConcat(start, JobsOfAll(cs[..last], templates, order, party), jobs, perform, failFast);
      ConcatenatesOneMore(start, cs[..last], EnrichedAll(start, cs[..last], templates, order, party, perform, failFast),
                          WorkAll(start, JobsOfAll(cs[..last], templates, order, party), perform, failFast), cs[last],
                          jobs, perform, failFast);
    }
  }

  // ---- the matrix ----------------------------------------------------------------------------------

  lemma {:induction false} CandidateJobsAddNoEntry(start: Log, jobs: seq<Job>, perform: Performer, failFast: bool)
    requires AddsEntries(perform)
    requires forall j | j in jobs :: j.CandidateJob?
    ensures WorkAll(start, jobs, perform, failFast).matrix == start.matrix
  {
    if jobs != [] {
      var last := |jobs| - 1;
      assert jobs == jobs[..last] + [jobs[last]];
      CandidateJobsAddNoEntry(start, jobs[..last], perform, failFast);
      var log := WorkAll(start, jobs[..last], perform, failFast);
      assert jobs[last] in jobs && EntrySound(perform(jobs[last], log.calls), jobs[last]);
      assert log.matrix + [] == log.matrix;
    }
  }

  ghost predicate EntriesFollow(start: Log, jobs: seq<Job>, log: Log) {
    && |log.matrix| == |start.matrix| + |jobs|
    && start.matrix <= log.matrix
    && forall k | 0 <= k < |jobs| :: Connects(log.matrix[|start.matrix| + k], jobs[k])
  }

  /** A run that is not ended adds one entry per route job, in order, for its origin and destination. */
  lemma {:induction false} RouteJobsAddEntries(start: Log, jobs: seq<Job>, perform: Performer, failFast: bool)
    requires AddsEntries(perform)
    requires forall j | j in jobs :: j.RouteJob?
    requires !WorkAll(start, jobs, perform, failFast).raised
    ensures EntriesFollow(start, jobs, WorkAll(start, jobs, perform, failFast))
  {
    if jobs != [] {
      var last := |jobs| - 1;
      assert jobs == jobs[..last] + [jobs[last]];
      RouteJobsAddEntries(start, jobs[..last], perform, failFast);
      var log := WorkAll(start, jobs[..last], perform, failFast);
      assert EntrySound(perform(jobs[last], log.calls), jobs[last]);
      OneMoreEntry(start, jobs[..last], log, jobs[last], perform(jobs[last], log.calls), failFast);
    }
  }

  lemma {:induction false} OneMoreEntry(start: Log, jobs: seq<Job>, log: Log, job: Job, done: Done, failFast: bool)
    requires EntriesFollow(start, jobs, log) && done.entry.Some? && Connects(done.entry.value, job)
    ensures EntriesFollow(start, jobs + [job], Recorded(log, done, failFast))
  {
  }

  /** The position of row i, column j. */
  function Cell(i: nat, j: nat, width: nat): nat {
    i * width + j
  }

  lemma {:induction false} PairsAreRowMajor(t: Template, origins: seq<Candidate>, destinations: seq<Candidate>)
    ensures var jobs := PairJobs(t, origins, destinations);
            && |jobs| == |origins| * |destinations|
            && (forall j | j in jobs :: j.RouteJob?)
            && (forall i, j | 0 <= i < |origins| && 0 <= j < |destinations| ::
                  Cell(i, j, |destinations|) < |jobs|
                    && jobs[Cell(i, j, |destinations|)] == RouteJob(t, origins[i], destinations[j]))
  {
    if origins != [] {
      var last := |origins| - 1;
      PairsAreRowMajor(t, origins[..last], destinations);
      var jobs, before := PairJobs(t, origins, destinations), PairJobs(t, origins[..last], destinations);
      assert |jobs| == last * |destinations| + |destinations| == |origins| * |destinations|;
      forall i, j | 0 <= i < |origins| && 0 <= j < |destinations|
        ensures Cell(i, j, |destinations|) < |jobs|
                && jobs[Cell(i, j, |destinations|)] == RouteJob(t, origins[i], destinations[j])
      {
        if i < last {
          assert Cell(i, j, |destinations|) < |before|
            && before[Cell(i, j, |destinations|)] == RouteJob(t, origins[..last][i], destinations[j]);
        }
      }
    }
  }

  lemma {:induction false} JobsAreCandidateJobs(
      cs: seq<Candidate>, templates: map<string, Template>, order: seq<string>, party: nat)
    ensures forall j | j in JobsOfAll(cs, templates, order, party) :: j.CandidateJob?
  {
    if cs != [] {
      JobsAreCandidateJobs(cs[..|cs| - 1], templates, order, party);
      JobsOfOneAreCandidateJobs(cs[|cs| - 1], templates, order, party);
    }
  }

  lemma {:induction false} JobsOfOneAreCandidateJobs(
      c: Candidate, templates: map<string, Template>, order: seq<string>, party: nat)
    ensures forall j | j in JobsOf(c, templates, order, party) :: j.CandidateJob? && j.candidate == c
  {
    if order != [] {
      JobsOfOneAreCandidateJobs(c, templates, order[..|order| - 1], party);
    }
  }

  // ---- failing fast --------------------------------------------------------------------------------

  /** Failing fast ends the run exactly when otherwise something would fail; and if it does not, it changes nothing. */
  lemma {:induction false} FailFastExactly(start: Log, jobs: seq<Job>, perform: Performer)
    requires !start.raised
    ensures var fast, slow := WorkAll(start, jobs, perform, true), WorkAll(start, jobs, perform, false);
            && !slow.raised
            && (fast.raised <==> slow.failed != start.failed)
            && (!fast.raised ==> fast == slow)
  {
    if jobs != [] {
      var last := |jobs| - 1;
      FailFastExactly(start, jobs[..last], perform);
      OnlyAppends(start, jobs[..last], perform, false);
    }
  }

  /** The attributes of a candidate are told by its own list of results: by the last usable one of each kind. */
  lemma {:induction false} AttributesComeFromResults(
      start: Log, c: Candidate, jobs: seq<Job>, world: World, failFast: bool)
    requires !start.raised && forall j | j in jobs :: j.CandidateJob?
    ensures var e := EnrichedOf(start, c, jobs, Performing(world), failFast);
            !WorkAll(start, jobs, Performing(world), failFast).raised ==> e.attributes == AttributesIn(e.tools)
  {
    var perform := Performing(world);
    if jobs == [] {
      assert Since(start.tools, start.tools) == [];
    } else if !WorkAll(start, jobs, perform, failFast).raised {
      var last := |jobs| - 1;
      assert jobs == jobs[..last] + [jobs[last]];
      AttributesComeFromResults(start, c, jobs[..last], world, failFast);
      OneMoreEnriched(start, c, jobs[..last], jobs[last], perform, failFast);
      var log := WorkAll(start, jobs[..last], perform, failFast);
      JobAttachesFirst(jobs[last], log.calls, world);
      DoneAttaches(EnrichedOf(start, c, jobs[..last], perform, failFast).tools, perform(jobs[last], log.calls));
    }
  }

  // ---- the whole run -------------------------------------------------------------------------------

  /** Results of candidates come first, kind by kind and candidate by candidate; those of routes follow. */
  ghost predicate InOrder(r: EnrichmentResult, plan: Plan, a: seq<Candidate>, d: seq<Candidate>, o: seq<Candidate>) {
    && CandidatesOf(r.activity) == a && CandidatesOf(r.dining) == d && CandidatesOf(r.other) == o
    && ToolsOf(r.activity) + ToolsOf(r.dining) + ToolsOf(r.other) <= r.tools
    && FailedOf(r.activity) + FailedOf(r.dining) + FailedOf(r.other) <= r.failed
    && (RouteTemplate(plan.routes).None? ==>
          r.tools == ToolsOf(r.activity) + ToolsOf(r.dining) + ToolsOf(r.other)
          && r.failed == FailedOf(r.activity) + FailedOf(r.dining) + FailedOf(r.other))
  }

  lemma {:induction false} ChainedStages(
      s: Stages, a: seq<EnrichedCandidate>, d: seq<EnrichedCandidate>, o: seq<EnrichedCandidate>)
    requires s.s0.tools == [] && s.s0.failed == []
    requires Concatenates(s.s0, CandidatesOf(a), a, s.s1) && Concatenates(s.s1, CandidatesOf(d), d, s.s2)
    requires Concatenates(s.s2, CandidatesOf(o), o, s.s3) && Extends(s.s3, s.s4)
    ensures ToolsOf(a) + ToolsOf(d) + ToolsOf(o) == s.s3.tools <= s.s4.tools
    ensures FailedOf(a) + FailedOf(d) + FailedOf(o) == s.s3.failed <= s.s4.failed
  {
  }

  lemma {:induction false} RunIsInOrder(
      calls: seq<Request>, plan: Plan, collection: Collection, limits: (int, int, int), perform: Performer,
      failFast: bool)
    requires EnrichFrom(calls, plan, collection, limits, perform, failFast).1.Ok?
    ensures InOrder(EnrichFrom(calls, plan, collection, limits, perform, failFast).1.value, plan,
                    Selected(collection.activity, limits.0), Selected(collection.dining, limits.1),
                    Selected(collection.other, limits.2))
  {
    var a, d, o := Selected(collection.activity, limits.0), Selected(collection.dining, limits.1),
      Selected(collection.other, limits.2);
    var templates := TemplatesByTool(plan.enrichment);
    var s := StagesOf(calls, plan, a, d, o, perform, failFast);
    var r := EnrichFrom(calls, plan, collection, limits, perform, failFast).1.value;
    StageConcatenates(s.s0, a, templates, ACTIVITY_TOOL_ORDER, plan.party, perform, failFast);
    StageConcatenates(s.s1, d, templates, DINING_TOOL_ORDER, plan.party, perform, failFast);
    StageConcatenates(s.s2, o, templates, OTHER_TOOL_ORDER, plan.party, perform, failFast);
    OnlyAppends(s.s3, RouteJobs(plan.routes, a, d, o), perform, failFast);
    ChainedStages(s, r.activity, r.dining, r.other);
  }

  ghost predicate AccountsFor(r: EnrichmentResult, newCalls: int) {
    && |r.tools| == newCalls + CountBy(r.tools, IsMissingInput) + CountBy(r.tools, IsMalformed)
    && r.failed == Unusable(r.tools)
  }

  /**
   * Accounting of a run: the results are its gateway calls, plus the missing inputs, plus the malformed responses; and
   * the failed results are, in order, exactly those whose status is not usable.
   */
  lemma {:induction false} RunIsAccounted(
      calls: seq<Request>, plan: Plan, collection: Collection, limits: (int, int, int), perform: Performer,
      failFast: bool)
    requires KeepsAccounts(perform)
    requires EnrichFrom(calls, plan, collection, limits, perform, failFast).1.Ok?
    ensures var (log, result) := EnrichFrom(calls, plan, collection, limits, perform, failFast);
            calls <= log.calls && AccountsFor(result.value, |log.calls| - |calls|)
  {
    var a, d, o := Selected(collection.activity, limits.0), Selected(collection.dining, limits.1),
      Selected(collection.other, limits.2);
    var s := StagesOf(calls, plan, a, d, o, perform, failFast);
    StagesAreOneRun(calls, plan, a, d, o, perform, failFast);
    WorkAccounted(s.s0, AllJobs(plan, a, d, o), perform, failFast);
    assert s.s4.tools[|s.s0.tools|..] == s.s4.tools;
  }

  ghost function AllJobs(plan: Plan, a: seq<Candidate>, d: seq<Candidate>, o: seq<Candidate>): seq<Job> {
    var templates := TemplatesByTool(plan.enrichment);
    JobsOfAll(a, templates, ["get_poi_detail", "check_opening_hours", "check_ticket_availability"], plan.party)
    + JobsOfAll(d, templates, ["get_poi_detail", "check_opening_hours", "check_queue", "check_table_availability"],
                plan.party)
    + JobsOfAll(o, templates, ["get_poi_detail", "check_opening_hours"], plan.party) + RouteJobs(plan.routes, a, d, o)
  }

  lemma {:induction false} StagesAreOneRun(
      calls: seq<Request>, plan: Plan, a: seq<Candidate>, d: seq<Candidate>, o: seq<Candidate>,
      perform: Performer, failFast: bool)
    ensures var s := StagesOf(calls, plan, a, d, o, perform, failFast);
            s.s4 == WorkAll(s.s0, AllJobs(plan, a, d, o), perform, failFast)
  {
    var templates := TemplatesByTool(plan.enrichment);
    var s := StagesOf(calls, plan, a, d, o, perform, failFast);
    var j1 := JobsOfAll(a, templates, ACTIVITY_TOOL_ORDER, plan.party);
    var j2 := JobsOfAll(d, templates, DINING_TOOL_ORDER, plan.party);
    var j3 := JobsOfAll(o, templates, OTHER_TOOL_ORDER, plan.party);
    StageFollows(s.s0, j1, j2, perform, failFast);
    StageFollows(s.s0, j1 + j2, j3, perform, failFast);
    StageFollows(s.s0, j1 + j2 + j3, RouteJobs(plan.routes, a, d, o), perform, failFast);
  }

  lemma {:induction false} StageFollows(
      start: Log, before: seq<Job>, jobs: seq<Job>, perform: Performer, failFast: bool)
    ensures var log := WorkAll(start, before, perform, failFast);
            WorkAll(start, before + jobs, perform, failFast) == if log.raised then log
              else WorkAll(log, jobs, perform, failFast)
  {
    WorkAllConcat(start, before, jobs, perform, failFast);
    var log := WorkAll(start, before, perform, failFast);
    if log.raised {
      RaisedEnds(log, jobs, perform, failFast);
    }
  }

  ghost predicate EntryAt(matrix: seq<RouteEntry>, k: nat, origin: Candidate, destination: Candidate) {
    k < |matrix| && matrix[k].origin == origin.id && matrix[k].destination == destination.id
  }

  ghost predicate RowMajor(
      matrix: seq<RouteEntry>, offset: nat, origins: seq<Candidate>, destinations: seq<Candidate>) {
    forall i, j | 0 <= i < |origins| && 0 <= j < |destinations| ::
      EntryAt(matrix, offset + Cell(i, j, |destinations|), origins[i], destinations[j])
  }

  lemma {:induction false} EntriesOfPairs(
      t: Template, origins: seq<Candidate>, destinations: seq<Candidate>, start: Log, log: Log)
    requires EntriesFollow(start, PairJobs(t, origins, destinations), log)
    ensures RowMajor(log.matrix, |start.matrix|, origins, destinations)
  {
    var jobs := PairJobs(t, origins, destinations);
    PairsAreRowMajor(t, origins, destinations);
    forall i, j | 0 <= i < |origins| && 0 <= j < |destinations|
      ensures EntryAt(log.matrix, |start.matrix| + Cell(i, j, |destinations|), origins[i], destinations[j])
    {
      var k := Cell(i, j, |destinations|);
      assert k < |jobs| && jobs[k] == RouteJob(t, origins[i], destinations[j]);
      assert Connects(log.matrix[|start.matrix| + k], jobs[k]);
    }
  }

  lemma {:induction false} PairsGiveRows(
      t: Template, origins: seq<Candidate>, destinations: seq<Candidate>, start: Log, perform: Performer,
      failFast: bool)
    requires AddsEntries(perform)
    requires !WorkAll(start, PairJobs(t, origins, destinations), perform, failFast).raised
    ensures var log := WorkAll(start, PairJobs(t, origins, destinations), perform, failFast);
            && |log.matrix| == |start.matrix| + |origins| * |destinations|
            && start.matrix <= log.matrix
            && RowMajor(log.matrix, |start.matrix|, origins, destinations)
  {
    var jobs := PairJobs(t, origins, destinations);
    PairsAreRowMajor(t, origins, destinations);
    RouteJobsAddEntries(start, jobs, perform, failFast);
    EntriesOfPairs(t, origins, destinations, start, WorkAll(start, jobs, perform, failFast));
  }

  /** Every pair of the first two lists, and then every pair of the last two, and nothing else. */
  ghost predicate BothRowMajor(matrix: seq<RouteEntry>, a: seq<Candidate>, d: seq<Candidate>, o: seq<Candidate>) {
    && |matrix| == |a| * |d| + |d| * |o|
    && |a| * |d| >= 0
    && RowMajor(matrix, 0, a, d)
    && RowMajor(matrix, |a| * |d|, d, o)
  }

  lemma {:induction false} BothMatrices(
      t: Template, a: seq<Candidate>, d: seq<Candidate>, o: seq<Candidate>, start: Log, perform: Performer,
      failFast: bool)
    requires AddsEntries(perform)
    requires start.matrix == []
    requires !WorkAll(start, PairJobs(t, a, d) + PairJobs(t, d, o), perform, failFast).raised
    ensures BothRowMajor(WorkAll(start, PairJobs(t, a, d) + PairJobs(t, d, o), perform, failFast).matrix, a, d, o)
  {
    StageFollows(start, PairJobs(t, a, d), PairJobs(t, d, o), perform, failFast);
    var middle := WorkAll(start, PairJobs(t, a, d), perform, failFast);
    PairsGiveRows(t, a, d, start, perform, failFast);
    PairsGiveRows(t, d, o, middle, perform, failFast);
    KeepsRows(middle.matrix, WorkAll(middle, PairJobs(t, d, o), perform, failFast).matrix, a, d);
  }

  ghost predicate IsMatrix(
      matrix: seq<RouteEntry>, routes: seq<Template>, a: seq<Candidate>, d: seq<Candidate>, o: seq<Candidate>) {
    if RouteTemplate(routes).None? then matrix == []
    else BothRowMajor(matrix, a, d, o)
  }

  lemma {:induction false} MatrixOfStage(
      routes: seq<Template>, a: seq<Candidate>, d: seq<Candidate>, o: seq<Candidate>, start: Log,
      perform: Performer, failFast: bool)
    requires AddsEntries(perform)
    requires start.matrix == [] && !WorkAll(start, RouteJobs(routes, a, d, o), perform, failFast).raised
    ensures IsMatrix(WorkAll(start, RouteJobs(routes, a, d, o), perform, failFast).matrix, routes, a, d, o)
  {
    if RouteTemplate(routes).Some? {
      BothMatrices(RouteTemplate(routes).value, a, d, o, start, perform, failFast);
    }
  }

  lemma {:induction false} KeepsRows(
      before: seq<RouteEntry>, after: seq<RouteEntry>, origins: seq<Candidate>, destinations: seq<Candidate>)
    requires before <= after && RowMajor(before, 0, origins, destinations)
    ensures RowMajor(after, 0, origins, destinations)
  {
    forall i, j | 0 <= i < |origins| && 0 <= j < |destinations|
      ensures EntryAt(after, 0 + Cell(i, j, |destinations|), origins[i], destinations[j])
    {
      assert EntryAt(before, 0 + Cell(i, j, |destinations|), origins[i], destinations[j]);
    }
  }

  /**
   * With a route template, the matrix of a run holds every activity with every dining candidate and then every dining
   * with every other candidate, row by row, and nothing else; without one it is empty.
   */
  lemma {:induction false} MatrixOfRun(
      calls: seq<Request>, plan: Plan, collection: Collection, limits: (int, int, int), perform: Performer,
      failFast: bool)
    requires AddsEntries(perform)
    requires EnrichFrom(calls, plan, collection, limits, perform, failFast).1.Ok?
    ensures IsMatrix(EnrichFrom(calls, plan, collection, limits, perform, failFast).1.value.matrix, plan.routes,
                     Selected(collection.activity, limits.0), Selected(collection.dining, limits.1),
                     Selected(collection.other, limits.2))
  {
    var a, d, o := Selected(collection.activity, limits.0), Selected(collection.dining, limits.1),
      Selected(collection.other, limits.2);
    StagesAddNoEntry(calls, plan, a, d, o, perform, failFast);
    MatrixOfStage(plan.routes, a, d, o, StagesOf(calls, plan, a, d, o, perform, failFast).s3, perform, failFast);
  }

  lemma {:induction false} StagesAddNoEntry(
      calls: seq<Request>, plan: Plan, a: seq<Candidate>, d: seq<Candidate>, o: seq<Candidate>,
      perform: Performer, failFast: bool)
    requires AddsEntries(perform)
    ensures StagesOf(calls, plan, a, d, o, perform, failFast).s3.matrix == []
  {
    var templates := TemplatesByTool(plan.enrichment);
    var s := StagesOf(calls, plan, a, d, o, perform, failFast);
    JobsAreCandidateJobs(a, templates, ACTIVITY_TOOL_ORDER, plan.party);
    JobsAreCandidateJobs(d, templates, DINING_TOOL_ORDER, plan.party);
    JobsAreCandidateJobs(o, templates, OTHER_TOOL_ORDER, plan.party);
    CandidateJobsAddNoEntry(s.s0, JobsOfAll(a, templates, ACTIVITY_TOOL_ORDER, plan.party), perform, failFast);
    CandidateJobsAddNoEntry(s.s1, JobsOfAll(d, templates, DINING_TOOL_ORDER, plan.party), perform, failFast);
    CandidateJobsAddNoEntry(s.s2, JobsOfAll(o, templates, OTHER_TOOL_ORDER, plan.party), perform, failFast);
  }

  // ---- whose results these are -----------------------------------------------------------------------

  ghost predicate Labelled(done: Done, job: Job) {
    && done.results != [] && (forall r | r in done.results :: r.subject == SubjectOf(job))
    && (done.failure.Some? ==> done.failure.value.subject == SubjectOf(job))
  }

  ghost predicate Labels(perform: Performer) {
    forall job, calls :: Labelled(perform(job, calls), job)
  }

  lemma {:induction false} ReplyIsLabelled(job: Job, request: Request, mode: string, reply: Reply)
    ensures Labelled(AfterReply(job, request, mode, reply), job)
  {
  }

  lemma {:induction false} PerformingLabels(world: World)
    ensures Labels(Performing(world))
  {
    forall job, calls ensures Labelled(Performing(world)(job, calls), job) {
      var t: Template := job.template;
      var (payload, missing) := ResolvePayload(t, ContextOf(job));
      if missing.None? {
        var request := Request(t.tool, t.provider, payload);
        ReplyIsLabelled(job, request, PayloadMode(payload), world(calls + [request]));
      }
    }
  }

  /** Every job has at least one result, and those of a job stand together, in the order of the jobs. */
  ghost predicate InJobOrder(results: seq<ToolResult>, jobs: seq<Job>)
    decreases |jobs|
  {
    if jobs == [] then results == []
    else exists n | 0 <= n < |results| :: EndsWithJob(results, n, jobs)
  }

  ghost predicate EndsWithJob(results: seq<ToolResult>, n: nat, jobs: seq<Job>)
    requires jobs != [] && n < |results|
    decreases |jobs|, 0
  {
    var last := |jobs| - 1;
    && InJobOrder(results[..n], jobs[..last])
    && forall i | n <= i < |results| :: results[i].subject == SubjectOf(jobs[last])
  }

  ghost predicate IsOfJobs(r: ToolResult, jobs: seq<Job>) {
    exists k | 0 <= k < |jobs| :: r.subject == SubjectOf(jobs[k])
  }

  lemma {:induction false} OneJobMore(results: seq<ToolResult>, jobs: seq<Job>, job: Job, more: seq<ToolResult>)
    requires InJobOrder(results, jobs) && more != []
    requires forall r | r in more :: r.subject == SubjectOf(job)
    ensures InJobOrder(results + more, jobs + [job])
  {
    assert (jobs + [job])[..|jobs|] == jobs && (results + more)[..|results|] == results;
    forall i | |results| <= i < |results + more| ensures (results + more)[i].subject == SubjectOf(job) {
      assert (results + more)[i] == more[i - |results|];
    }
    assert EndsWithJob(results + more, |results|, jobs + [job]);
  }

  lemma {:induction false} ResultsInJobOrder(start: Log, jobs: seq<Job>, perform: Performer, failFast: bool)
    requires Labels(perform) && !WorkAll(start, jobs, perform, failFast).raised
    ensures InJobOrder(Since(start.tools, WorkAll(start, jobs, perform, failFast).tools), jobs)
  {
    if jobs == [] {
      assert Since(start.tools, start.tools) == [];
    } else {
      var before, job := jobs[..|jobs| - 1], jobs[|jobs| - 1];
      var log := WorkAll(start, before, perform, failFast);
      ResultsInJobOrder(start, before, perform, failFast);
      OnlyAppends(start, before, perform, failFast);
      var done := perform(job, log.calls);
      assert Labelled(done, job);
      SinceAppended(start.tools, log.tools, done.results);
      assert jobs == before + [job];
      OneJobMore(Since(start.tools, log.tools), before, job, done.results);
    }
  }

  ghost predicate AllOfJobs(results: seq<ToolResult>, jobs: seq<Job>) {
    forall r | r in results :: IsOfJobs(r, jobs)
  }

  lemma {:induction false} OfMoreJobs(results: seq<ToolResult>, jobs: seq<Job>, job: Job)
    requires AllOfJobs(results, jobs)
    ensures AllOfJobs(results, jobs + [job])
  {
    forall r | r in results ensures IsOfJobs(r, jobs + [job]) {
      var k :| 0 <= k < |jobs| && r.subject == SubjectOf(jobs[k]);
      assert (jobs + [job])[k] == jobs[k];
    }
  }

  lemma {:induction false} FailuresOfJobs(start: Log, jobs: seq<Job>, perform: Performer, failFast: bool)
    requires Labels(perform) && !WorkAll(start, jobs, perform, failFast).raised
    ensures AllOfJobs(Since(start.failed, WorkAll(start, jobs, perform, failFast).failed), jobs)
  {
    if jobs == [] {
      assert Since(start.failed, start.failed) == [];
    } else {
      var before, job := jobs[..|jobs| - 1], jobs[|jobs| - 1];
      var log := WorkAll(start, before, perform, failFast);
      FailuresOfJobs(start, before, perform, failFast);
      OnlyAppends(start, before, perform, failFast);
      var done := perform(job, log.calls);
      assert Labelled(done, job);
      SinceAppended(start.failed, log.failed, Listed(done.failure));
      assert jobs == before + [job];
      OfMoreJobs(Since(start.failed, log.failed), before, job);
      if done.failure.Some? {
        assert done.failure.value.subject == SubjectOf(jobs[|before|]);
      }
    }
  }

  /** The results and failures that a candidate carries are its own. */
  ghost predicate CarriesItsOwn(e: EnrichedCandidate) {
    && (forall r | r in e.tools :: r.subject == OfCandidate(e.candidate.id))
    && (forall r | r in e.failed :: r.subject == OfCandidate(e.candidate.id))
  }

  lemma {:induction false} JobsAreOfCandidate(
      c: Candidate, templates: map<string, Template>, order: seq<string>, party: nat)
    ensures forall job | job in JobsOf(c, templates, order, party) :: SubjectOf(job) == OfCandidate(c.id)
  {
    if order != [] {
      JobsAreOfCandidate(c, templates, order[..|order| - 1], party);
    }
  }

  lemma {:induction false} OrderedAreOfJobs(results: seq<ToolResult>, jobs: seq<Job>)
    requires InJobOrder(results, jobs)
    ensures AllOfJobs(results, jobs)
    decreases |jobs|
  {
    if jobs != [] {
      var last := |jobs| - 1;
      var n :| 0 <= n < |results| && EndsWithJob(results, n, jobs);
      OrderedAreOfJobs(results[..n], jobs[..last]);
      OfMoreJobs(results[..n], jobs[..last], jobs[last]);
      assert jobs == jobs[..last] + [jobs[last]];
      forall i | 0 <= i < |results| ensures IsOfJobs(results[i], jobs) {
        if i < n {
          assert results[..n][i] in results[..n];
        }
      }
    }
  }

  lemma {:induction false} EnrichedCarriesItsOwn(
      start: Log, c: Candidate, templates: map<string, Template>, order: seq<string>, party: nat, perform: Performer,
      failFast: bool)
    requires Labels(perform) && !WorkAll(start, JobsOf(c, templates, order, party), perform, failFast).raised
    ensures CarriesItsOwn(EnrichedOf(start, c, JobsOf(c, templates, order, party), perform, failFast))
  {
    var jobs := JobsOf(c, templates, order, party);
    var e := EnrichedOf(start, c, jobs, perform, failFast);
    JobsAreOfCandidate(c, templates, order, party);
    ResultsInJobOrder(start, jobs, perform, failFast);
    OrderedAreOfJobs(e.tools, jobs);
    FailuresOfJobs(start, jobs, perform, failFast);
    forall r | IsOfJobs(r, jobs) ensures r.subject == OfCandidate(c.id) {
      var k :| 0 <= k < |jobs| && r.subject == SubjectOf(jobs[k]);
      assert jobs[k] in jobs;
    }
  }

  lemma {:induction false} AllCarryTheirOwn(
      start: Log, cs: seq<Candidate>, templates: map<string, Template>, order: seq<string>, party: nat,
      perform: Performer, failFast: bool)
    requires Labels(perform) && !WorkAll(start, JobsOfAll(cs, templates, order, party), perform, failFast).raised
    ensures forall e | e in EnrichedAll(start, cs, templates, order, party, perform, failFast) :: CarriesItsOwn(e)
  {
    if cs != [] {
      var prefix, last := cs[..|cs| - 1], cs[|cs| - 1];
      var before, jobs := JobsOfAll(prefix, templates, order, party), JobsOf(last, templates, order, party);
      StageFollows(start, before, jobs, perform, failFast);
      AllCarryTheirOwn(start, prefix, templates, order, party, perform, failFast);
      EnrichedCarriesItsOwn(WorkAll(start, before, perform, failFast), last, templates, order, party, perform,
                            failFast);
    }
  }

  /**
   * Every candidate carries its own results; behind those of all candidates come those of the routes, pair by pair in
   * the order of the matrix, one or more for each.
   */
  ghost predicate ToldApart(r: EnrichmentResult, plan: Plan, a: seq<Candidate>, d: seq<Candidate>, o: seq<Candidate>) {
    var tools := ToolsOf(r.activity) + ToolsOf(r.dining) + ToolsOf(r.other);
    var failed := FailedOf(r.activity) + FailedOf(r.dining) + FailedOf(r.other);
    && (forall e | e in r.activity + r.dining + r.other :: CarriesItsOwn(e))
    && InJobOrder(Since(tools, r.tools), RouteJobs(plan.routes, a, d, o))
    && AllOfJobs(Since(failed, r.failed), RouteJobs(plan.routes, a, d, o))
  }

  lemma {:induction false} RunIsToldApart(
      calls: seq<Request>, plan: Plan, collection: Collection, limits: (int, int, int), perform: Performer,
      failFast: bool)
    requires Labels(perform) && EnrichFrom(calls, plan, collection, limits, perform, failFast).1.Ok?
    ensures ToldApart(EnrichFrom(calls, plan, collection, limits, perform, failFast).1.value, plan,
                      Selected(collection.activity, limits.0), Selected(collection.dining, limits.1),
                      Selected(collection.other, limits.2))
  {
    var a, d, o := Selected(collection.activity, limits.0), Selected(collection.dining, limits.1),
      Selected(collection.other, limits.2);
    var templates := TemplatesByTool(plan.enrichment);
    var s := StagesOf(calls, plan, a, d, o, perform, failFast);
    var r := EnrichFrom(calls, plan, collection, limits, perform, failFast).1.value;
    StageConcatenates(s.s0, a, templates, ACTIVITY_TOOL_ORDER, plan.party, perform, failFast);
    StageConcatenates(s.s1, d, templates, DINING_TOOL_ORDER, plan.party, perform, failFast);
    StageConcatenates(s.s2, o, templates, OTHER_TOOL_ORDER, plan.party, perform, failFast);
    OnlyAppends(s.s3, RouteJobs(plan.routes, a, d, o), perform, failFast);
    ChainedStages(s, r.activity, r.dining, r.other);
    StagesCarryTheirOwn(s, plan, a, d, o, perform, failFast);
    ResultsInJobOrder(s.s3, RouteJobs(plan.routes, a, d, o), perform, failFast);
    FailuresOfJobs(s.s3, RouteJobs(plan.routes, a, d, o), perform, failFast);
  }

  lemma {:induction false} StagesCarryTheirOwn(
      s: Stages, plan: Plan, a: seq<Candidate>, d: seq<Candidate>, o: seq<Candidate>, perform: Performer,
      failFast: bool)
    requires Labels(perform) && !s.s1.raised && !s.s2.raised && !s.s3.raised
    requires var templates := TemplatesByTool(plan.enrichment);
             && s.s1 == WorkAll(s.s0, JobsOfAll(a, templates, ACTIVITY_TOOL_ORDER, plan.party), perform, failFast)
             && s.s2 == WorkAll(s.s1, JobsOfAll(d, templates, DINING_TOOL_ORDER, plan.party), perform, failFast)
             && s.s3 == WorkAll(s.s2, JobsOfAll(o, templates, OTHER_TOOL_ORDER, plan.party), perform, failFast)
    ensures var templates := TemplatesByTool(plan.enrichment);
            && (forall e | e in EnrichedAll(s.s0, a, templates, ACTIVITY_TOOL_ORDER, plan.party, perform, failFast) ::
                  CarriesItsOwn(e))
            && (forall e | e in EnrichedAll(s.s1, d, templates, DINING_TOOL_ORDER, plan.party, perform, failFast) ::
                  CarriesItsOwn(e))
            && (forall e | e in EnrichedAll(s.s2, o, templates, OTHER_TOOL_ORDER, plan.party, perform, failFast) ::
                  CarriesItsOwn(e))
  {
    var templates := TemplatesByTool(plan.enrichment);
    AllCarryTheirOwn(s.s0, a, templates, ACTIVITY_TOOL_ORDER, plan.party, perform, failFast);
    AllCarryTheirOwn(s.s1, d, templates, DINING_TOOL_ORDER, plan.party, perform, failFast);
    AllCarryTheirOwn(s.s2, o, templates, OTHER_TOOL_ORDER, plan.party, perform, failFast);
  }

  // ---- what was asked for ----------------------------------------------------------------------------

  /** What a job asks for does not depend on the calls before it. */
  ghost function Asks(job: Job): Option<Request> {
    var (payload, missing) := ResolvePayload(job.template, ContextOf(job));
    if missing.Some? then None else Some(Request(job.template.tool, job.template.provider, payload))
  }

  ghost function AskedFor(jobs: seq<Job>): seq<Request> {
    if jobs == [] then [] else AskedFor(jobs[..|jobs| - 1]) + Listed(Asks(jobs[|jobs| - 1]))
  }

  ghost predicate AsksAlike(perform: Performer) {
    forall job, calls :: perform(job, calls).request == Asks(job)
  }

  lemma {:induction false} PerformingAsksAlike(world: World)
    ensures AsksAlike(Performing(world))
  {
    forall job, calls ensures Performing(world)(job, calls).request == Asks(job) {
      RequestOfJob(job, calls, world);
    }
  }

  lemma {:induction false} RequestOfJob(job: Job, calls: seq<Request>, world: World)
    ensures Perform(job, calls, world).request == Asks(job)
  {
  }

  lemma {:induction false} CallsOfJobs(start: Log, jobs: seq<Job>, perform: Performer, failFast: bool)
    requires AsksAlike(perform) && !WorkAll(start, jobs, perform, failFast).raised
    ensures WorkAll(start, jobs, perform, failFast).calls == start.calls + AskedFor(jobs)
  {
    if jobs != [] {
      CallsOfJobs(start, jobs[..|jobs| - 1], perform, failFast);
    }
  }

  /** Entry k of the matrix is that of job k, which was done after the calls of the jobs before it. */
  ghost predicate EntriesTell(start: Log, jobs: seq<Job>, perform: Performer, matrix: seq<RouteEntry>) {
    && |matrix| == |start.matrix| + |jobs|
    && forall k | 0 <= k < |jobs| ::
         perform(jobs[k], start.calls + AskedFor(jobs[..k])).entry == Some(matrix[|start.matrix| + k])
  }

  lemma {:induction false} EntriesOfJobs(start: Log, jobs: seq<Job>, perform: Performer, failFast: bool)
    requires AsksAlike(perform) && AddsEntries(perform) && forall job | job in jobs :: job.RouteJob?
    requires !WorkAll(start, jobs, perform, failFast).raised
    ensures EntriesTell(start, jobs, perform, WorkAll(start, jobs, perform, failFast).matrix)
  {
    if jobs != [] {
      var before, job := jobs[..|jobs| - 1], jobs[|jobs| - 1];
      assert jobs == before + [job];
      EntriesOfJobs(start, before, perform, failFast);
      CallsOfJobs(start, before, perform, failFast);
      var log := WorkAll(start, before, perform, failFast);
      assert EntrySound(perform(job, log.calls), job);
      EntryBehind(start, before, job, perform, log.matrix, perform(job, log.calls).entry.value);
    }
  }

  lemma {:induction false} EntryBehind(
      start: Log, jobs: seq<Job>, job: Job, perform: Performer, matrix: seq<RouteEntry>, entry: RouteEntry)
    requires EntriesTell(start, jobs, perform, matrix)
    requires perform(job, start.calls + AskedFor(jobs)).entry == Some(entry)
    ensures EntriesTell(start, jobs + [job], perform, matrix + [entry])
  {
    var all := jobs + [job];
    forall k | 0 <= k < |all|
      ensures perform(all[k], start.calls + AskedFor(all[..k])).entry
              == Some((matrix + [entry])[|start.matrix| + k])
    {
      if k < |jobs| {
        assert all[k] == jobs[k] && all[..k] == jobs[..k];
      } else {
        assert all[..k] == jobs;
      }
    }
  }

  /**
   * A run that returns normally has asked for exactly what its jobs ask for, in their order: those of the candidates,
   * kind by kind and tool by tool, then those of the routes. Each matrix entry tells the reply to its own request.
   */
  lemma {:induction false} RunAsksForItsJobs(
      calls: seq<Request>, plan: Plan, collection: Collection, limits: (int, int, int), world: World, failFast: bool)
    requires EnrichFrom(calls, plan, collection, limits, Performing(world), failFast).1.Ok?
    ensures var (log, result) := EnrichFrom(calls, plan, collection, limits, Performing(world), failFast);
            var a, d, o := Selected(collection.activity, limits.0), Selected(collection.dining, limits.1),
              Selected(collection.other, limits.2);
            var s := StagesOf(calls, plan, a, d, o, Performing(world), failFast);
            && log.calls == calls + AskedFor(AllJobs(plan, a, d, o))
            && s.s3.matrix == [] && log.calls == s.s3.calls + AskedFor(RouteJobs(plan.routes, a, d, o))
            && EntriesTell(s.s3, RouteJobs(plan.routes, a, d, o), Performing(world), result.value.matrix)
  {
    var a, d, o := Selected(collection.activity, limits.0), Selected(collection.dining, limits.1),
      Selected(collection.other, limits.2);
    var s := StagesOf(calls, plan, a, d, o, Performing(world), failFast);
    StagesAreOneRun(calls, plan, a, d, o, Performing(world), failFast);
    PerformingAsksAlike(world);
    CallsOfJobs(s.s0, AllJobs(plan, a, d, o), Performing(world), failFast);
    PerformingIsFaithful(world);
    StagesAddNoEntry(calls, plan, a, d, o, Performing(world), failFast);
    RoutesOnly(plan.routes, a, d, o);
    CallsOfJobs(s.s3, RouteJobs(plan.routes, a, d, o), Performing(world), failFast);
    EntriesOfJobs(s.s3, RouteJobs(plan.routes, a, d, o), Performing(world), failFast);
  }

  lemma {:induction false} RoutesOnly(routes: seq<Template>, a: seq<Candidate>, d: seq<Candidate>, o: seq<Candidate>)
    ensures forall job | job in RouteJobs(routes, a, d, o) :: job.RouteJob?
  {
    if RouteTemplate(routes).Some? {
      PairsAreRowMajor(RouteTemplate(routes).value, a, d);
      PairsAreRowMajor(RouteTemplate(routes).value, d, o);
    }
  }

  /** All of it for the enricher as it is constructed: over any gateway, however it replies. */
  lemma {:induction false} EnrichmentIsAccounted(
      calls: seq<Request>, plan: Plan, collection: Collection, limits: (int, int, int), world: World,
      failFast: bool)
    requires EnrichFrom(calls, plan, collection, limits, Performing(world), failFast).1.Ok?
    ensures var (log, result) := EnrichFrom(calls, plan, collection, limits, Performing(world), failFast);
            var a, d, o := Selected(collection.activity, limits.0), Selected(collection.dining, limits.1),
              Selected(collection.other, limits.2);
            && AccountsFor(result.value, |log.calls| - |calls|)
            && InOrder(result.value, plan, a, d, o)
            && ToldApart(result.value, plan, a, d, o)
            && IsMatrix(result.value.matrix, plan.routes, a, d, o)
  {
    PerformingIsFaithful(world);
    RunIsAccounted(calls, plan, collection, limits, Performing(world), failFast);
    RunIsInOrder(calls, plan, collection, limits, Performing(world), failFast);
    PerformingLabels(world);
    RunIsToldApart(calls, plan, collection, limits, Performing(world), failFast);
    MatrixOfRun(calls, plan, collection, limits, Performing(world), failFast);
  }

  lemma {:induction false} GoesOnAlike(start: Log, jobs: seq<Job>, perform: Performer)
    requires !WorkAll(start, jobs, perform, true).raised
    ensures !start.raised && WorkAll(start, jobs, perform, true) == WorkAll(start, jobs, perform, false)
  {
    if start.raised {
      RaisedEnds(start, jobs, perform, true);
    } else {
      FailFastExactly(start, jobs, perform);
    }
  }

  lemma {:induction false} SameAttributes(start: Log, jobs: seq<Job>, perform: Performer)
    requires !WorkAll(start, jobs, perform, true).raised
    ensures AttributesOf(start, jobs, perform, true) == AttributesOf(start, jobs, perform, false)
  {
    if jobs != [] {
      var before := jobs[..|jobs| - 1];
      SameAttributes(start, before, perform);
      GoesOnAlike(start, before, perform);
    }
  }

  lemma {:induction false} SameEnriched(start: Log, c: Candidate, jobs: seq<Job>, perform: Performer)
    requires !WorkAll(start, jobs, perform, true).raised
    ensures EnrichedOf(start, c, jobs, perform, true) == EnrichedOf(start, c, jobs, perform, false)
  {
    SameAttributes(start, jobs, perform);
    GoesOnAlike(start, jobs, perform);
  }

  lemma {:induction false} SameEnrichedAll(
      start: Log, cs: seq<Candidate>, templates: map<string, Template>, order: seq<string>, party: nat,
      perform: Performer)
    requires !WorkAll(start, JobsOfAll(cs, templates, order, party), perform, true).raised
    ensures EnrichedAll(start, cs, templates, order, party, perform, true)
            == EnrichedAll(start, cs, templates, order, party, perform, false)
  {
    if cs != [] {
      var prefix, last := cs[..|cs| - 1], cs[|cs| - 1];
      var before, jobs := JobsOfAll(prefix, templates, order, party), JobsOf(last, templates, order, party);
      StageFollows(start, before, jobs, perform, true);
      SameEnrichedAll(start, prefix, templates, order, party, perform);
      GoesOnAlike(start, before, perform);
      SameEnriched(WorkAll(start, before, perform, true), last, jobs, perform);
    }
  }

  lemma {:induction false} SameStages(
      calls: seq<Request>, plan: Plan, a: seq<Candidate>, d: seq<Candidate>, o: seq<Candidate>, perform: Performer)
    requires !StagesOf(calls, plan, a, d, o, perform, true).s4.raised
    ensures StagesOf(calls, plan, a, d, o, perform, true) == StagesOf(calls, plan, a, d, o, perform, false)
    ensures var s := StagesOf(calls, plan, a, d, o, perform, true);
            !s.s1.raised && !s.s2.raised && !s.s3.raised
  {
    var templates := TemplatesByTool(plan.enrichment);
    var s := StagesOf(calls, plan, a, d, o, perform, true);
    GoesOnAlike(s.s0, JobsOfAll(a, templates, ACTIVITY_TOOL_ORDER, plan.party), perform);
    GoesOnAlike(s.s1, JobsOfAll(d, templates, DINING_TOOL_ORDER, plan.party), perform);
    GoesOnAlike(s.s2, JobsOfAll(o, templates, OTHER_TOOL_ORDER, plan.party), perform);
    GoesOnAlike(s.s3, RouteJobs(plan.routes, a, d, o), perform);
  }

  lemma {:induction false} SameResult(
      calls: seq<Request>, plan: Plan, collection: Collection, limits: (int, int, int), perform: Performer)
    requires EnrichFrom(calls, plan, collection, limits, perform, true).1.Ok?
    ensures EnrichFrom(calls, plan, collection, limits, perform, true)
            == EnrichFrom(calls, plan, collection, limits, perform, false)
  {
    var a, d, o := Selected(collection.activity, limits.0), Selected(collection.dining, limits.1),
      Selected(collection.other, limits.2);
    var templates := TemplatesByTool(plan.enrichment);
    var s := StagesOf(calls, plan, a, d, o, perform, true);
    SameStages(calls, plan, a, d, o, perform);
    SameEnrichedAll(s.s0, a, templates, ACTIVITY_TOOL_ORDER, plan.party, perform);
    SameEnrichedAll(s.s1, d, templates, DINING_TOOL_ORDER, plan.party, perform);
    SameEnrichedAll(s.s2, o, templates, OTHER_TOOL_ORDER, plan.party, perform);
  }

  /**
   * Failing fast returns normally exactly when a patient run has no failure, and then returns the same result after the
   * same calls; a patient run fails only for a write template.
   */
  lemma {:induction false} FailFastRun(
      calls: seq<Request>, plan: Plan, collection: Collection, limits: (int, int, int), perform: Performer)
    ensures var fast := EnrichFrom(calls, plan, collection, limits, perform, true);
            var slow := EnrichFrom(calls, plan, collection, limits, perform, false);
            && (fast.1.Ok? <==> slow.1.Ok? && slow.1.value.failed == [])
            && (fast.1.Ok? ==> fast == slow)
            && (slow.1.Err? <==>
                exists i | 0 <= i < |plan.enrichment + plan.routes| :: IsWrite((plan.enrichment + plan.routes)[i]))
  {
    var a, d, o := Selected(collection.activity, limits.0), Selected(collection.dining, limits.1),
      Selected(collection.other, limits.2);
    StagesAreOneRun(calls, plan, a, d, o, perform, true);
    StagesAreOneRun(calls, plan, a, d, o, perform, false);
    FailFastExactly(Log(calls, [], [], [], false), AllJobs(plan, a, d, o), perform);
    var write := FirstWriteTemplate(plan.enrichment + plan.routes);
    assert write < |plan.enrichment + plan.routes| ==> IsWrite((plan.enrichment + plan.routes)[write]);
    if EnrichFrom(calls, plan, collection, limits, perform, true).1.Ok? {
      SameResult(calls, plan, collection, limits, perform);
    }
  }

  predicate IsWrite(t: Template) {
    t.tool in G.WRITE_TOOLS
  }
}
