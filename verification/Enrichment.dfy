/** Enrichment of selected candidates by read tools, and the matrix of routes between them. */
module Enrichment {
  import opened Wrappers
  import opened Strings
  import opened JsonTrees
  import opened Gateway

  type Payload = map<string, Json>

  datatype Template = Template(tool: string, provider: string, payload: seq<Field>, required: seq<string>)

  /** `poiId` and `restaurantId` are the non-empty texts of the raw payload. */
  datatype Candidate = Candidate(id: string, location: Option<string>, poiId: Option<string>,
      restaurantId: Option<string>)

  datatype Request = Request(tool: string, provider: string, payload: Payload)

  datatype Reply = Reply(tool: string, provider: string, status: string, response: Option<Json>, error: Option<Json>,
      event: nat)

  /** The gateway: what it replies may depend on every call made so far. */
  type World = seq<Request> -> Reply

  datatype Problem = MissingInput(name: string) | MalformedResponse(key: string) | Reported(error: Json)

  /** Whom a result is about. */
  datatype Subject = OfCandidate(id: string) | OfRoute(origin: string, destination: string)

  datatype ToolResult = ToolResult(
    subject: Subject, tool: string, provider: string, status: string, response: Option<Json>, problem: Option<Problem>,
    event: Option<nat>)

  /** The travel mode of an entry; a mode in the response that is not text is kept as it came. */
  datatype Mode = Named(name: string) | Rendered(value: Json)

  datatype RouteEntry = RouteEntry(
    origin: string, destination: string, provider: string, mode: Mode, status: string, route: Option<Json>,
    distance: Option<int>, minutes: Option<int>, event: Option<nat>, problem: Option<Problem>)

  datatype EnrichedCandidate = EnrichedCandidate(
    candidate: Candidate, attributes: map<string, Json>, tools: seq<ToolResult>, failed: seq<ToolResult>)

  const ACTIVITY_TOOL_ORDER: seq<string> := ["get_poi_detail", "check_opening_hours", "check_ticket_availability"]
  const DINING_TOOL_ORDER: seq<string> :=
    ["get_poi_detail", "check_opening_hours", "check_queue", "check_table_availability"]
  const OTHER_TOOL_ORDER: seq<string> := ["get_poi_detail", "check_opening_hours"]

  predicate IsUsable(status: string) {
    status == "succeeded" || status == "cached"
  }

  /** The key of the response, and the attribute that its value becomes. */
  function ResponseKeys(tool: string): Option<(string, string)> {
    if tool == "get_poi_detail" then Some(("poi", "poi_detail"))
    else if tool == "check_opening_hours" then Some(("opening_hours", "opening_hours"))
    else if tool == "check_queue" then Some(("queue", "queue"))
    else if tool == "check_table_availability" then Some(("table_availability", "table_availability"))
    else if tool == "check_ticket_availability" then Some(("ticket_availability", "ticket_availability"))
    else None
  }

  // ---- payloads ------------------------------------------------------------------------------------

  /** A template value `{name}` stands for the context value of that name; None when there is no such value. */
  function ResolveValue(value: Json, context: Payload): Option<Json> {
    if value.Str? && |value.s| > 2 && value.s[0] == '{' && value.s[|value.s| - 1] == '}' then
      var name := value.s[1..|value.s| - 1];
      if name in context then Some(context[name]) else None
    else Some(value)
  }

  function Filled(template: seq<Field>, context: Payload): Payload {
    if template == [] then map[]
    else
      var last := template[|template| - 1];
      var before := Filled(template[..|template| - 1], context);
      var value := ResolveValue(last.value, context);
      if value.Some? then before[last.name := value.value] else before
  }

  predicate IsGiven(payload: Payload, name: string) {
    name in payload && !payload[name].Null? && payload[name] != Str("")
  }

  function WithInput(payload: Payload, name: string, context: Payload): Payload {
    if name !in payload && name in context then payload[name := context[name]] else payload
  }

  /** The payload after the required inputs were looked up, and the first of them that is not given. */
  function Completed(payload: Payload, required: seq<string>, context: Payload): (Payload, Option<string>)
    decreases |required|
  {
    if required == [] then (payload, None)
    else
      var with := WithInput(payload, required[0], context);
      if IsGiven(with, required[0]) then Completed(with, required[1..], context) else (with, Some(required[0]))
  }

  function ResolvePayload(t: Template, context: Payload): (Payload, Option<string>) {
    Completed(Filled(t.payload, context), t.required, context)
  }

  method ResolvePayloadInOrder(t: Template, context: Payload) returns (payload: Payload, missing: Option<string>)
    ensures (payload, missing) == ResolvePayload(t, context)
  {
    payload := map[];
    for i := 0 to |t.payload|
      invariant payload == Filled(t.payload[..i], context)
    {
      assert t.payload[..i + 1][..i] == t.payload[..i];
      var value := ResolveValue(t.payload[i].value, context);
      if value.Some? {
        payload := payload[t.payload[i].name := value.value];
      }
    }
    assert t.payload[..|t.payload|] == t.payload;
    for i := 0 to |t.required|
      invariant ResolvePayload(t, context) == Completed(payload, t.required[i..], context)
    {
      if t.required[i] !in payload && t.required[i] in context {
        payload := payload[t.required[i] := context[t.required[i]]];
      }
      if !IsGiven(payload, t.required[i]) {
        return payload, Some(t.required[i]);
      }
    }
    missing := None;
  }

  function CandidateContext(c: Candidate, party: nat): Payload {
    map["poi_id" := Str(if c.poiId.Some? then c.poiId.value else c.id),
        "restaurant_id" := Str(if c.restaurantId.Some? then c.restaurantId.value else c.id),
        "party_size" := Int(party),
        "quantity" := Int(party)]
  }

  function PlaceOf(c: Candidate, name: string): Payload {
    if c.location.Some? && Trim(c.location.value) != "" then map[name := Str(c.location.value)] else map[]
  }

  function RouteContext(origin: Candidate, destination: Candidate): Payload {
    map["origin_id" := Str(origin.id), "destination_id" := Str(destination.id), "mode" := Str("walking")]
    + PlaceOf(origin, "origin") + PlaceOf(destination, "destination")
  }

  function PayloadMode(payload: Payload): string {
    if "mode" in payload && payload["mode"].Str? && payload["mode"].s != "" then payload["mode"].s else "walking"
  }

  // ---- one call --------------------------------------------------------------------------------------

  datatype Job = CandidateJob(template: Template, candidate: Candidate, party: nat)
    | RouteJob(template: Template, origin: Candidate, destination: Candidate)

  function SubjectOf(job: Job): Subject {
    match job
    case CandidateJob(_, c, _) => OfCandidate(c.id)
    case RouteJob(_, o, d) => OfRoute(o.id, d.id)
  }

  function ContextOf(job: Job): Payload {
    match job
    case CandidateJob(_, c, party) => CandidateContext(c, party)
    case RouteJob(_, o, d) => RouteContext(o, d)
  }

  /** What a job adds: perhaps a call, one or two results, perhaps a failure, an attribute or a matrix entry. */
  datatype Done = Done(
    request: Option<Request>, results: seq<ToolResult>, failure: Option<ToolResult>,
    attached: Option<(string, Json)>, entry: Option<RouteEntry>)

  function FromGateway(subject: Subject, reply: Reply): ToolResult {
    ToolResult(subject, reply.tool, reply.provider, reply.status, reply.response,
               if reply.error.Some? then Some(Reported(reply.error.value)) else None, Some(reply.event))
  }

  function LocalFailure(subject: Subject, t: Template, problem: Problem, response: Option<Json>): ToolResult {
    ToolResult(subject, t.tool, t.provider, "failed", response, Some(problem), None)
  }

  function ResponseObject(reply: Reply, key: string): Option<Json> {
    if reply.response.Some? && reply.response.value.Obj? && Lookup(reply.response.value.fields, key).Some?
       && Lookup(reply.response.value.fields, key).value.Obj?
    then Lookup(reply.response.value.fields, key) else None
  }

  function FailedEntry(
      job: Job, provider: string, mode: string, status: string, event: Option<nat>,
      problem: Option<Problem>): Option<RouteEntry> {
    match job
    case CandidateJob(_, _, _) => None
    case RouteJob(_, o, d) =>
      Some(RouteEntry(o.id, d.id, provider, Named(mode), status, None, None, None, event, problem))
  }

  function Digits(text: string): int {
    if text == "" then 0 else Digits(text[..|text| - 1]) * 10 + (text[|text| - 1] as int - '0' as int)
  }

  function IntOrNone(value: Option<Json>): Option<int> {
    match value
    case Some(Int(n)) => Some(n)
    case Some(Flt(r)) => if r.Floor as real == r then Some(r.Floor) else None
    case Some(Str(s)) => if s != "" && (forall c | c in s :: '0' <= c <= '9') then Some(Digits(s)) else None
    case _ => None
  }

  /** Minutes as given, or seconds rounded up to minutes. */
  function MinutesOf(route: seq<Field>): Option<int> {
    var minutes := IntOrNone(Lookup(route, "duration_minutes"));
    var seconds := IntOrNone(Lookup(route, "duration_seconds"));
    if minutes.Some? then minutes else if seconds.Some? then Some((seconds.value + 59) / 60) else None
  }

  predicate IsFalsy(value: Json) {
    value == Null || value == Bool(false) || value == Int(0) || value == Flt(0.0) || value == Str("")
      || value == Arr([]) || value == Obj([])
  }

  function ModeOf(route: seq<Field>, fallback: string): Mode {
    var mode := Lookup(route, "mode");
    if mode.None? || IsFalsy(mode.value) then Named(fallback)
    else if mode.value.Str? then Named(mode.value.s)
    else Rendered(mode.value)
  }

  function GoodEntry(job: Job, reply: Reply, mode: string, route: seq<Field>): Option<RouteEntry> {
    match job
    case CandidateJob(_, _, _) => None
    case RouteJob(_, o, d) =>
      Some(RouteEntry(o.id, d.id, reply.provider, ModeOf(route, mode), reply.status, Some(Obj(route)),
                      IntOrNone(Lookup(route, "distance_meters")), MinutesOf(route), Some(reply.event), None))
  }

  /** The object a reply must hold for the job: its key and the attribute to set, if any is expected. */
  function ExpectedOf(job: Job, reply: Reply): Option<(string, string)> {
    if job.RouteJob? then Some(("route", "")) else ResponseKeys(reply.tool)
  }

  function FailureProvider(job: Job, reply: Reply): Template {
    if job.RouteJob? then job.template else job.template.(tool := reply.tool, provider := reply.provider)
  }

  function AfterReply(job: Job, request: Request, mode: string, reply: Reply): Done {
    var told := FromGateway(SubjectOf(job), reply);
    if !IsUsable(reply.status) then
      Done(Some(request), [told], Some(told), None,
           FailedEntry(job, reply.provider, mode, reply.status, Some(reply.event), told.problem))
    else
      var expected := ExpectedOf(job, reply);
      if expected.None? then Done(Some(request), [told], None, None, None)
      else
        var value := ResponseObject(reply, expected.value.0);
        if value.None? then
          var problem := MalformedResponse(expected.value.0);
          var failure := LocalFailure(SubjectOf(job), FailureProvider(job, reply), problem, reply.response);
          Done(Some(request), [told, failure], Some(failure), None,
               FailedEntry(job, reply.provider, mode, "failed", Some(reply.event), Some(problem)))
        else
          Done(Some(request), [told], None, if job.CandidateJob? then Some((expected.value.1, value.value)) else None,
               GoodEntry(job, reply, mode, value.value.fields))
  }

  function Perform(job: Job, calls: seq<Request>, world: World): Done {
    var t := job.template;
    var (payload, missing) := ResolvePayload(t, ContextOf(job));
    if missing.Some? then
      var failure := LocalFailure(SubjectOf(job), t, MissingInput(missing.value), None);
      Done(None, [failure], Some(failure), None,
           FailedEntry(job, t.provider, PayloadMode(payload), "failed", None, failure.problem))
    else
      var request := Request(t.tool, t.provider, payload);
      AfterReply(job, request, PayloadMode(payload), world(calls + [request]))
  }

  // ---- all calls -------------------------------------------------------------------------------------

  /** How jobs are performed, given the calls before. */
  type Performer = (Job, seq<Request>) -> Done

  function Performing(world: World): Performer {
    (job, calls) => Perform(job, calls, world)
  }

  /** Everything recorded so far; `raised` when a failure has ended the run. */
  datatype Log = Log(calls: seq<Request>, tools: seq<ToolResult>, failed: seq<ToolResult>, matrix: seq<RouteEntry>,
      raised: bool)

  function Listed<T>(value: Option<T>): seq<T> {
    if value.Some? then [value.value] else []
  }

  function Recorded(log: Log, done: Done, failFast: bool): Log {
    Log(log.calls + Listed(done.request), log.tools + done.results, log.failed + Listed(done.failure),
        log.matrix + Listed(done.entry), failFast && done.failure.Some?)
  }

  function Work(log: Log, job: Job, perform: Performer, failFast: bool): Log {
    if log.raised then log else Recorded(log, perform(job, log.calls), failFast)
  }

  function WorkAll(start: Log, jobs: seq<Job>, perform: Performer, failFast: bool): Log {
    if jobs == [] then start
    else Work(WorkAll(start, jobs[..|jobs| - 1], perform, failFast), jobs[|jobs| - 1], perform, failFast)
  }

  lemma {:induction false} WorkAllConcat(start: Log, a: seq<Job>, b: seq<Job>, perform: Performer, failFast: bool)
    ensures WorkAll(start, a + b, perform, failFast)
            == WorkAll(WorkAll(start, a, perform, failFast), b, perform, failFast)
  {
    if b == [] {
      assert a + b == a;
    } else {
      assert (a + b)[..|a + b| - 1] == a + b[..|b| - 1];
      WorkAllConcat(start, a, b[..|b| - 1], perform, failFast);
    }
  }

  lemma {:induction false} RaisedEnds(start: Log, jobs: seq<Job>, perform: Performer, failFast: bool)
    requires start.raised
    ensures WorkAll(start, jobs, perform, failFast) == start
  {
    if jobs != [] {
      RaisedEnds(start, jobs[..|jobs| - 1], perform, failFast);
    }
  }

  function SetAttribute(attributes: map<string, Json>, done: Done): map<string, Json> {
    if done.attached.Some? then attributes[done.attached.value.0 := done.attached.value.1] else attributes
  }

  /** The attributes that the jobs of one candidate set. */
  function AttributesOf(start: Log, jobs: seq<Job>, perform: Performer, failFast: bool): map<string, Json> {
    if jobs == [] then map[]
    else
      var before := AttributesOf(start, jobs[..|jobs| - 1], perform, failFast);
      var log := WorkAll(start, jobs[..|jobs| - 1], perform, failFast);
      if log.raised then before else SetAttribute(before, perform(jobs[|jobs| - 1], log.calls))
  }

  lemma {:induction false} OneMoreJob(start: Log, jobs: seq<Job>, job: Job, perform: Performer, failFast: bool)
    requires !WorkAll(start, jobs, perform, failFast).raised
    ensures var log := WorkAll(start, jobs, perform, failFast);
            && WorkAll(start, jobs + [job], perform, failFast) == Recorded(log, perform(job, log.calls), failFast)
            && AttributesOf(start, jobs + [job], perform, failFast)
               == SetAttribute(AttributesOf(start, jobs, perform, failFast), perform(job, log.calls))
  {
    assert (jobs + [job])[..|jobs|] == jobs;
  }

  // ---- the plan of all jobs ----------------------------------------------------------------------------

  datatype Plan = Plan(enrichment: seq<Template>, routes: seq<Template>, party: nat)

  datatype Collection = Collection(activity: seq<Candidate>, dining: seq<Candidate>, other: seq<Candidate>)

  /** The last template of a tool counts. */
  function TemplatesByTool(templates: seq<Template>): map<string, Template> {
    if templates == [] then map[]
    else TemplatesByTool(templates[..|templates| - 1])[templates[|templates| - 1].tool := templates[|templates| - 1]]
  }

  function JobsOf(c: Candidate, templates: map<string, Template>, order: seq<string>, party: nat): seq<Job> {
    if order == [] then []
    else
      var last := order[|order| - 1];
      JobsOf(c, templates, order[..|order| - 1], party)
      + if last in templates then [CandidateJob(templates[last], c, party)] else []
  }

  function JobsOfAll(cs: seq<Candidate>, templates: map<string, Template>, order: seq<string>, party: nat): seq<Job> {
    if cs == [] then []
    else JobsOfAll(cs[..|cs| - 1], templates, order, party) + JobsOf(cs[|cs| - 1], templates, order, party)
  }

  /** From one origin to every destination. */
  function RowJobs(t: Template, origin: Candidate, destinations: seq<Candidate>): seq<Job> {
    seq(|destinations|, i requires 0 <= i < |destinations| => RouteJob(t, origin, destinations[i]))
  }

  function PairJobs(t: Template, origins: seq<Candidate>, destinations: seq<Candidate>): seq<Job> {
    if origins == [] then []
    else PairJobs(t, origins[..|origins| - 1], destinations) + RowJobs(t, origins[|origins| - 1], destinations)
  }

  function RouteTemplate(templates: seq<Template>): Option<Template> {
    if templates == [] then None
    else if templates[0].tool == "check_route" then Some(templates[0])
    else RouteTemplate(templates[1..])
  }

  function IdsOf(cs: seq<Candidate>): set<string> {
    set c | c in cs :: c.id
  }

  /** The first candidate of each id. */
  function DistinctById(cs: seq<Candidate>): seq<Candidate> {
    if cs == [] then []
    else
      var before := DistinctById(cs[..|cs| - 1]);
      if cs[|cs| - 1].id in IdsOf(before) then before else before + [cs[|cs| - 1]]
  }

  function Selected(cs: seq<Candidate>, limit: int): seq<Candidate> {
    if limit <= 0 then []
    else if |DistinctById(cs)| <= limit then DistinctById(cs)
    else DistinctById(cs)[..limit]
  }

  lemma {:induction false} DistinctGrows(cs: seq<Candidate>, n: nat)
    requires n <= |cs|
    ensures DistinctById(cs[..n]) <= DistinctById(cs)
    decreases |cs|
  {
    if n < |cs| {
      assert cs[..|cs| - 1][..n] == cs[..n];
      DistinctGrows(cs[..|cs| - 1], n);
    } else {
      assert cs[..n] == cs;
    }
  }

  lemma {:induction false} IdsGrow(cs: seq<Candidate>, c: Candidate)
    ensures IdsOf(cs + [c]) == IdsOf(cs) + {c.id}
  {
    assert forall x | x in cs :: x in cs + [c];
    assert c in cs + [c];
  }

  lemma {:induction false} SelectedEarly(cs: seq<Candidate>, n: nat, limit: int)
    requires n <= |cs| && limit > 0 && |DistinctById(cs[..n])| == limit
    ensures DistinctById(cs[..n]) == Selected(cs, limit)
  {
    DistinctGrows(cs, n);
  }

  method SelectCandidates(cs: seq<Candidate>, limit: int) returns (selected: seq<Candidate>)
    ensures selected == Selected(cs, limit)
  {
    selected := [];
    if limit <= 0 {
      return;
    }
    var seen: set<string> := {};
    for i := 0 to |cs|
      invariant selected == DistinctById(cs[..i]) && seen == IdsOf(selected)
      invariant |selected| < limit
    {
      assert cs[..i + 1][..i] == cs[..i];
      if cs[i].id !in seen {
        IdsGrow(selected, cs[i]);
        seen := seen + {cs[i].id};
        selected := selected + [cs[i]];
        if |selected| >= limit {
          SelectedEarly(cs, i + 1, limit);
          return;
        }
      }
    }
    assert cs[..|cs|] == cs;
  }

  function FirstWriteTemplate(templates: seq<Template>): (i: nat)
    ensures i <= |templates|
    ensures i < |templates| ==> templates[i].tool in WRITE_TOOLS
    ensures forall j | 0 <= j < i :: templates[j].tool !in WRITE_TOOLS
  {
    if templates == [] then 0
    else
      var last := |templates| - 1;
      var i := FirstWriteTemplate(templates[..last]);
      if i < last || templates[last].tool in WRITE_TOOLS then i else last + 1
  }

  // ---- the run -------------------------------------------------------------------------------------------

  datatype EnrichmentError = WriteTemplate(index: nat) | FailedFast

  datatype EnrichmentResult = EnrichmentResult(
    activity: seq<EnrichedCandidate>, dining: seq<EnrichedCandidate>, other: seq<EnrichedCandidate>,
    tools: seq<ToolResult>, failed: seq<ToolResult>, matrix: seq<RouteEntry>)

  function Since<T>(before: seq<T>, after: seq<T>): seq<T> {
    if |before| <= |after| then after[|before|..] else []
  }

  /** A candidate after its jobs: its attributes, and its part of the result lists. */
  function EnrichedOf(start: Log, c: Candidate, jobs: seq<Job>, perform: Performer, failFast: bool): EnrichedCandidate {
    var log := WorkAll(start, jobs, perform, failFast);
    EnrichedCandidate(c, AttributesOf(start, jobs, perform, failFast), Since(start.tools, log.tools),
                      Since(start.failed, log.failed))
  }

  function WithDone(e: EnrichedCandidate, done: Done): EnrichedCandidate {
    e.(attributes := SetAttribute(e.attributes, done), tools := e.tools + done.results,
       failed := e.failed + Listed(done.failure))
  }

  ghost predicate Extends(start: Log, log: Log) {
    start.calls <= log.calls && start.tools <= log.tools && start.failed <= log.failed && start.matrix <= log.matrix
  }

  lemma {:induction false} OnlyAppends(start: Log, jobs: seq<Job>, perform: Performer, failFast: bool)
    ensures Extends(start, WorkAll(start, jobs, perform, failFast))
  {
    if jobs != [] {
      OnlyAppends(start, jobs[..|jobs| - 1], perform, failFast);
    }
  }

  lemma {:induction false} SinceAppended<T>(before: seq<T>, after: seq<T>, more: seq<T>)
    requires before <= after
    ensures Since(before, after + more) == Since(before, after) + more
  {
  }

  lemma {:induction false} OneMoreEnriched(
      start: Log, c: Candidate, jobs: seq<Job>, job: Job, perform: Performer, failFast: bool)
    requires !WorkAll(start, jobs, perform, failFast).raised
    ensures EnrichedOf(start, c, jobs + [job], perform, failFast)
            == WithDone(EnrichedOf(start, c, jobs, perform, failFast),
                        perform(job, WorkAll(start, jobs, perform, failFast).calls))
  {
    OneMoreJob(start, jobs, job, perform, failFast);
    OnlyAppends(start, jobs, perform, failFast);
    var log := WorkAll(start, jobs, perform, failFast);
    var done := perform(job, log.calls);
    SinceAppended(start.tools, log.tools, done.results);
    SinceAppended(start.failed, log.failed, Listed(done.failure));
  }

  function EnrichedAll(
    start: Log, cs: seq<Candidate>, templates: map<string, Template>, order: seq<string>, party: nat,
    perform: Performer, failFast: bool)
    : seq<EnrichedCandidate>
  {
    if cs == [] then []
    else
      var prefix, last := cs[..|cs| - 1], cs[|cs| - 1];
      EnrichedAll(start, prefix, templates, order, party, perform, failFast)
      + [EnrichedOf(WorkAll(start, JobsOfAll(prefix, templates, order, party), perform, failFast), last,
                    JobsOf(last, templates, order, party), perform, failFast)]
  }

  function RouteJobs(routes: seq<Template>, a: seq<Candidate>, d: seq<Candidate>, o: seq<Candidate>): seq<Job> {
    var t := RouteTemplate(routes);
    if t.None? then [] else PairJobs(t.value, a, d) + PairJobs(t.value, d, o)
  }

  lemma {:induction false} JobsOfStep(
      c: Candidate, templates: map<string, Template>, order: seq<string>, i: nat, party: nat)
    requires i < |order|
    ensures JobsOf(c, templates, order[..i + 1], party) == JobsOf(c, templates, order[..i], party)
            + if order[i] in templates then [CandidateJob(templates[order[i]], c, party)] else []
  {
    assert order[..i + 1][..i] == order[..i];
  }

  lemma {:induction false} JobsOfAllStep(
      cs: seq<Candidate>, templates: map<string, Template>, order: seq<string>, i: nat, party: nat)
    requires i < |cs|
    ensures JobsOfAll(cs[..i + 1], templates, order, party)
            == JobsOfAll(cs[..i], templates, order, party) + JobsOf(cs[i], templates, order, party)
  {
    assert cs[..i + 1][..i] == cs[..i];
  }

  lemma {:induction false} PairJobsStep(t: Template, origins: seq<Candidate>, destinations: seq<Candidate>, i: nat)
    requires i < |origins|
    ensures PairJobs(t, origins[..i + 1], destinations)
            == PairJobs(t, origins[..i], destinations) + RowJobs(t, origins[i], destinations)
  {
    assert origins[..i + 1][..i] == origins[..i];
  }

  lemma {:induction false} RowJobsStep(t: Template, origin: Candidate, destinations: seq<Candidate>, j: nat)
    requires j < |destinations|
    ensures RowJobs(t, origin, destinations[..j + 1])
            == RowJobs(t, origin, destinations[..j]) + [RouteJob(t, origin, destinations[j])]
  {
  }

  lemma {:induction false} JobsOfPrefix(
      c: Candidate, templates: map<string, Template>, order: seq<string>, n: nat, party: nat)
    requires n <= |order|
    ensures JobsOf(c, templates, order[..n], party) <= JobsOf(c, templates, order, party)
    decreases |order|
  {
    if n < |order| {
      assert order[..|order| - 1][..n] == order[..n];
      JobsOfPrefix(c, templates, order[..|order| - 1], n, party);
    } else {
      assert order[..n] == order;
    }
  }

  lemma {:induction false} JobsOfAllPrefix(
      cs: seq<Candidate>, templates: map<string, Template>, order: seq<string>, n: nat, party: nat)
    requires n <= |cs|
    ensures JobsOfAll(cs[..n], templates, order, party) <= JobsOfAll(cs, templates, order, party)
    decreases |cs|
  {
    if n < |cs| {
      assert cs[..|cs| - 1][..n] == cs[..n];
      JobsOfAllPrefix(cs[..|cs| - 1], templates, order, n, party);
    } else {
      assert cs[..n] == cs;
    }
  }

  lemma {:induction false} PairJobsPrefix(t: Template, origins: seq<Candidate>, destinations: seq<Candidate>, n: nat)
    requires n <= |origins|
    ensures PairJobs(t, origins[..n], destinations) <= PairJobs(t, origins, destinations)
    decreases |origins|
  {
    if n < |origins| {
      assert origins[..|origins| - 1][..n] == origins[..n];
      PairJobsPrefix(t, origins[..|origins| - 1], destinations, n);
    } else {
      assert origins[..n] == origins;
    }
  }

  lemma {:induction false} EnrichedAllStep(
    start: Log, cs: seq<Candidate>, templates: map<string, Template>, order: seq<string>, i: nat, party: nat,
    perform: Performer, failFast: bool)
    requires i < |cs|
    ensures EnrichedAll(start, cs[..i + 1], templates, order, party, perform, failFast)
            == EnrichedAll(start, cs[..i], templates, order, party, perform, failFast)
               + [EnrichedOf(WorkAll(start, JobsOfAll(cs[..i], templates, order, party), perform, failFast), cs[i],
                             JobsOf(cs[i], templates, order, party), perform, failFast)]
  {
    assert cs[..i + 1][..i] == cs[..i];
  }

  /** The result under construction, with the gateway calls made for it. */
  class CandidateEnricher {
    const perform: Performer
    const maxActivity: int
    const maxDining: int
    const maxOther: int
    var calls: seq<Request>
    var tools: seq<ToolResult>
    var failed: seq<ToolResult>
    var matrix: seq<RouteEntry>

    constructor (world: World, maxActivity: int, maxDining: int, maxOther: int)
      ensures perform == Performing(world)
      ensures this.maxActivity == maxActivity && this.maxDining == maxDining && this.maxOther == maxOther
      ensures Now(false) == Log([], [], [], [], false)
    {
      perform := Performing(world);
      this.maxActivity, this.maxDining, this.maxOther := maxActivity, maxDining, maxOther;
      calls, tools, failed, matrix := [], [], [], [];
    }

    ghost function Now(raised: bool): Log
      reads this
    {
      Log(calls, tools, failed, matrix, raised)
    }

    /** Records what a job did; false when the run ends there. */
    method Record(done: Done, failFast: bool) returns (goesOn: bool)
      modifies this
      ensures Now(!goesOn) == Recorded(old(Now(false)), done, failFast)
    {
      calls := calls + Listed(done.request);
      tools := tools + done.results;
      matrix := matrix + Listed(done.entry);
      failed := failed + Listed(done.failure);
      goesOn := !(failFast && done.failure.Some?);
    }

    /** Does one more job of a list that began at `start`. */
    method Do(job: Job, failFast: bool, ghost start: Log, ghost before: seq<Job>) returns (goesOn: bool, done: Done)
      requires Now(false) == WorkAll(start, before, perform, failFast)
      modifies this
      ensures Now(!goesOn) == WorkAll(start, before + [job], perform, failFast)
      ensures done == perform(job, WorkAll(start, before, perform, failFast).calls)
    {
      OneMoreJob(start, before, job, perform, failFast);
      done := perform(job, calls);
      goesOn := Record(done, failFast);
    }

    method EnrichCandidate(
        c: Candidate, templates: map<string, Template>, order: seq<string>, party: nat, failFast: bool)
      returns (goesOn: bool, enriched: EnrichedCandidate)
      modifies this
      ensures Now(!goesOn) == WorkAll(old(Now(false)), JobsOf(c, templates, order, party), perform, failFast)
      ensures goesOn ==>
                enriched == EnrichedOf(old(Now(false)), c, JobsOf(c, templates, order, party), perform, failFast)
    {
      ghost var start := Now(false);
      enriched := EnrichedCandidate(c, map[], [], []);
      goesOn := true;
      for i := 0 to |order|
        invariant goesOn && Now(false) == WorkAll(start, JobsOf(c, templates, order[..i], party), perform, failFast)
        invariant enriched == EnrichedOf(start, c, JobsOf(c, templates, order[..i], party), perform, failFast)
      {
        JobsOfStep(c, templates, order, i, party);
        ghost var before := JobsOf(c, templates, order[..i], party);
        if order[i] in templates {
          var job := CandidateJob(templates[order[i]], c, party);
          OneMoreEnriched(start, c, before, job, perform, failFast);
          var done: Done;
          goesOn, done := Do(job, failFast, start, before);
          if !goesOn {
            JobsOfPrefix(c, templates, order, i + 1, party);
            RestOfJobs(start, before + [job], JobsOf(c, templates, order, party), failFast);
            return;
          }
          enriched := WithDone(enriched, done);
        } else {
          assert before + [] == before;
        }
      }
      assert order[..|order|] == order;
    }

    /** All candidates of one kind, in order. */
    method EnrichCandidates(
        cs: seq<Candidate>, templates: map<string, Template>, order: seq<string>, party: nat, failFast: bool)
      returns (goesOn: bool, enriched: seq<EnrichedCandidate>)
      modifies this
      ensures Now(!goesOn) == WorkAll(old(Now(false)), JobsOfAll(cs, templates, order, party), perform, failFast)
      ensures goesOn ==> enriched == EnrichedAll(old(Now(false)), cs, templates, order, party, perform, failFast)
    {
      ghost var start := Now(false);
      enriched := [];
      goesOn := true;
      for i := 0 to |cs|
        invariant goesOn
        invariant Now(false) == WorkAll(start, JobsOfAll(cs[..i], templates, order, party), perform, failFast)
        invariant enriched == EnrichedAll(start, cs[..i], templates, order, party, perform, failFast)
      {
        JobsOfAllStep(cs, templates, order, i, party);
        WorkAllConcat(start, JobsOfAll(cs[..i], templates, order, party), JobsOf(cs[i], templates, order, party),
                      perform, failFast);
        EnrichedAllStep(start, cs, templates, order, i, party, perform, failFast);
        var one: EnrichedCandidate;
        goesOn, one := EnrichCandidate(cs[i], templates, order, party, failFast);
        if !goesOn {
          JobsOfAllPrefix(cs, templates, order, i + 1, party);
          RestOfJobs(start, JobsOfAll(cs[..i + 1], templates, order, party), JobsOfAll(cs, templates, order, party),
                     failFast);
          return;
        }
        enriched := enriched + [one];
      }
      assert cs[..|cs|] == cs;
    }

    /** The routes from one origin to every destination. */
    method AppendRouteMatrixRow(
        t: Template, origin: Candidate, destinations: seq<Candidate>, failFast: bool) returns (goesOn: bool)
      modifies this
      ensures Now(!goesOn) == WorkAll(old(Now(false)), RowJobs(t, origin, destinations), perform, failFast)
    {
      ghost var start := Now(false);
      goesOn := true;
      for j := 0 to |destinations|
        invariant goesOn && Now(false) == WorkAll(start, RowJobs(t, origin, destinations[..j]), perform, failFast)
      {
        RowJobsStep(t, origin, destinations, j);
        var done: Done;
        goesOn, done := Do(RouteJob(t, origin, destinations[j]), failFast, start,
                           RowJobs(t, origin, destinations[..j]));
        if !goesOn {
          RestOfJobs(start, RowJobs(t, origin, destinations[..j + 1]), RowJobs(t, origin, destinations), failFast);
          return;
        }
      }
      assert destinations[..|destinations|] == destinations;
    }

    lemma {:induction false} RestOfJobs(start: Log, done: seq<Job>, jobs: seq<Job>, failFast: bool)
      requires done <= jobs && WorkAll(start, done, perform, failFast).raised
      ensures WorkAll(start, jobs, perform, failFast) == WorkAll(start, done, perform, failFast)
    {
      assert jobs == done + jobs[|done|..];
      WorkAllConcat(start, done, jobs[|done|..], perform, failFast);
      RaisedEnds(WorkAll(start, done, perform, failFast), jobs[|done|..], perform, failFast);
    }

    /** Every pair of an origin and a destination, origin by origin. */
    method AppendRouteMatrixPairs(t: Template, origins: seq<Candidate>, destinations: seq<Candidate>, failFast: bool)
      returns (goesOn: bool)
      modifies this
      ensures Now(!goesOn) == WorkAll(old(Now(false)), PairJobs(t, origins, destinations), perform, failFast)
    {
      ghost var start := Now(false);
      goesOn := true;
      for i := 0 to |origins|
        invariant goesOn && Now(false) == WorkAll(start, PairJobs(t, origins[..i], destinations), perform, failFast)
      {
        PairJobsStep(t, origins, destinations, i);
        WorkAllConcat(start, PairJobs(t, origins[..i], destinations), RowJobs(t, origins[i], destinations), perform,
                      failFast);
        goesOn := AppendRouteMatrixRow(t, origins[i], destinations, failFast);
        if !goesOn {
          PairJobsPrefix(t, origins, destinations, i + 1);
          RestOfJobs(start, PairJobs(t, origins[..i + 1], destinations), PairJobs(t, origins, destinations), failFast);
          return;
        }
      }
      assert origins[..|origins|] == origins;
    }

    method BuildRouteMatrix(
        t: Template, a: seq<Candidate>, d: seq<Candidate>, o: seq<Candidate>,
        failFast: bool) returns (goesOn: bool)
      modifies this
      ensures Now(!goesOn) == WorkAll(old(Now(false)), PairJobs(t, a, d) + PairJobs(t, d, o), perform, failFast)
    {
      ghost var start := Now(false);
      WorkAllConcat(start, PairJobs(t, a, d), PairJobs(t, d, o), perform, failFast);
      goesOn := AppendRouteMatrixPairs(t, a, d, failFast);
      if !goesOn {
        RaisedEnds(Now(true), PairJobs(t, d, o), perform, failFast);
        return;
      }
      goesOn := AppendRouteMatrixPairs(t, d, o, failFast);
    }

    /** `enrich`: write tools are refused before anything is called. */
    method Enrich(
        plan: Plan, collection: Collection,
        failFast: bool) returns (result: Result<EnrichmentResult, EnrichmentError>)
      modifies this
      ensures var (log, value) :=
              EnrichFrom(old(calls), plan, collection, (maxActivity, maxDining, maxOther), perform, failFast);
              result == value && calls == log.calls
    {
      var write := FirstWriteTemplate(plan.enrichment + plan.routes);
      if write < |plan.enrichment + plan.routes| {
        return Err(WriteTemplate(write));
      }
      var a := SelectCandidates(collection.activity, maxActivity);
      var d := SelectCandidates(collection.dining, maxDining);
      var o := SelectCandidates(collection.other, maxOther);
      tools, failed, matrix := [], [], [];
      var templates := TemplatesByTool(plan.enrichment);
      ghost var s0 := Now(false);
      var goesOn, activity := EnrichCandidates(a, templates, ACTIVITY_TOOL_ORDER, plan.party, failFast);
      if !goesOn {
        return Err(FailedFast);
      }
      var dining;
      goesOn, dining := EnrichCandidates(d, templates, DINING_TOOL_ORDER, plan.party, failFast);
      if !goesOn {
        return Err(FailedFast);
      }
      var other;
      goesOn, other := EnrichCandidates(o, templates, OTHER_TOOL_ORDER, plan.party, failFast);
      if !goesOn {
        return Err(FailedFast);
      }
      var t := RouteTemplate(plan.routes);
      if t.Some? {
        goesOn := BuildRouteMatrix(t.value, a, d, o, failFast);
        if !goesOn {
          return Err(FailedFast);
        }
      }
      result := Ok(EnrichmentResult(activity, dining, other, tools, failed, matrix));
    }
  }

  /** The four stages of a run, each working on from where the one before stopped. */
  datatype Stages = Stages(s0: Log, s1: Log, s2: Log, s3: Log, s4: Log)

  function StagesOf(
      calls: seq<Request>, plan: Plan, a: seq<Candidate>, d: seq<Candidate>, o: seq<Candidate>,
      perform: Performer, failFast: bool): Stages {
    var templates := TemplatesByTool(plan.enrichment);
    var s0 := Log(calls, [], [], [], false);
    var s1 := WorkAll(s0, JobsOfAll(a, templates, ACTIVITY_TOOL_ORDER, plan.party), perform, failFast);
    var s2 := if s1.raised then s1
      else WorkAll(s1, JobsOfAll(d, templates, DINING_TOOL_ORDER, plan.party), perform, failFast);
    var s3 := if s2.raised then s2
      else WorkAll(s2, JobsOfAll(o, templates, OTHER_TOOL_ORDER, plan.party), perform, failFast);
    var s4 := if s3.raised then s3 else WorkAll(s3, RouteJobs(plan.routes, a, d, o), perform, failFast);
    Stages(s0, s1, s2, s3, s4)
  }

  function EnrichFrom(
      calls: seq<Request>, plan: Plan, collection: Collection, limits: (int, int, int), perform: Performer,
      failFast: bool)
    : (Log, Result<EnrichmentResult, EnrichmentError>)
  {
    var write := FirstWriteTemplate(plan.enrichment + plan.routes);
    if write < |plan.enrichment + plan.routes| then (Log(calls, [], [], [], false), Err(WriteTemplate(write)))
    else
      var a, d, o := Selected(collection.activity, limits.0), Selected(collection.dining, limits.1),
        Selected(collection.other, limits.2);
      var templates := TemplatesByTool(plan.enrichment);
      var s := StagesOf(calls, plan, a, d, o, perform, failFast);
      if s.s4.raised then (s.s4, Err(FailedFast))
      else
        (s.s4, Ok(EnrichmentResult(
          EnrichedAll(s.s0, a, templates, ACTIVITY_TOOL_ORDER, plan.party, perform, failFast),
          EnrichedAll(s.s1, d, templates, DINING_TOOL_ORDER, plan.party, perform, failFast),
          EnrichedAll(s.s2, o, templates, OTHER_TOOL_ORDER, plan.party, perform, failFast),
          s.s4.tools, s.s4.failed, s.s4.matrix)))
  }
}
