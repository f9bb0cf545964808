/** One job of an enrichment run: what it asks for, and what its results and its matrix entry tell about the reply. */
module EnrichmentJobs {
  import opened Wrappers
  import opened Strings
  import opened JsonTrees
  import opened Enrichment

  // ---- the payload ---------------------------------------------------------------------------------

  function Get(payload: Payload, name: string): Option<Json> {
    if name in payload then Some(payload[name]) else None
  }

  /** The value is a placeholder for the context value of that name. */
  ghost predicate StandsFor(value: Json, name: string) {
    name != "" && value == Str("{" + name + "}")
  }

  lemma {:induction false} ResolvedExactly(value: Json, context: Payload)
    ensures forall name | StandsFor(value, name) :: ResolveValue(value, context) == Get(context, name)
    ensures (forall name :: !StandsFor(value, name)) ==> ResolveValue(value, context) == Some(value)
  {
    forall name | StandsFor(value, name) ensures ResolveValue(value, context) == Get(context, name) {
      assert value.s[1..|value.s| - 1] == name;
    }
    if value.Str? && |value.s| > 2 && value.s[0] == '{' && value.s[|value.s| - 1] == '}' {
      assert value.s == "{" + value.s[1..|value.s| - 1] + "}";
      assert StandsFor(value, value.s[1..|value.s| - 1]);
    }
  }

  /** The field gives its name that value: a context value for a placeholder, or else the value itself. */
  ghost predicate Supplies(field: Field, context: Payload, value: Json) {
    if exists name :: StandsFor(field.value, name)
    then exists name :: StandsFor(field.value, name) && Get(context, name) == Some(value)
    else value == field.value
  }

  lemma {:induction false} SuppliesExactly(field: Field, context: Payload, value: Json)
    ensures ResolveValue(field.value, context) == Some(value) <==> Supplies(field, context, value)
  {
    ResolvedExactly(field.value, context);
  }

  /** The last field of the name that gives it a value. */
  ghost predicate LastSupply(template: seq<Field>, context: Payload, name: string, value: Json, i: nat) {
    && i < |template| && template[i].name == name && Supplies(template[i], context, value)
    && forall j, other | i < j < |template| && template[j].name == name :: !Supplies(template[j], context, other)
  }

  ghost predicate FromTemplate(template: seq<Field>, context: Payload, name: string, value: Json) {
    exists i :: LastSupply(template, context, name, value, i)
  }

  lemma {:induction false} SupplyGrows(
      before: seq<Field>, field: Field, context: Payload, name: string, value: Json)
    ensures FromTemplate(before + [field], context, name, value) <==>
            if field.name == name && (exists other :: Supplies(field, context, other))
            then Supplies(field, context, value) else FromTemplate(before, context, name, value)
  {
    var all := before + [field];
    if i: nat :| LastSupply(all, context, name, value, i) {
      if i < |before| {
        assert all[|before|] == field && i < |before| < |all|;
        assert forall j | i < j < |before| :: all[j] == before[j];
        assert LastSupply(before, context, name, value, i);
      }
    }
    if field.name == name && Supplies(field, context, value) {
      assert LastSupply(all, context, name, value, |before|);
    } else if !(field.name == name && exists other :: Supplies(field, context, other)) {
      if i: nat :| LastSupply(before, context, name, value, i) {
        assert forall j | i < j < |all| :: all[j] == if j < |before| then before[j] else field;
        assert LastSupply(all, context, name, value, i);
      }
    }
  }

  lemma {:induction false} FilledExactly(template: seq<Field>, context: Payload, name: string, value: Json)
    ensures Get(Filled(template, context), name) == Some(value) <==> FromTemplate(template, context, name, value)
  {
    if template != [] {
      var before, field := template[..|template| - 1], template[|template| - 1];
      assert template == before + [field];
      FilledExactly(before, context, name, value);
      SupplyGrows(before, field, context, name, value);
      forall other ensures ResolveValue(field.value, context) == Some(other) <==> Supplies(field, context, other) {
        SuppliesExactly(field, context, other);
      }
    }
  }

  /** What a job has under a name: what the template gives, or else the context. */
  function InputOf(filled: Payload, context: Payload, name: string): Option<Json> {
    if name in filled then Some(filled[name]) else Get(context, name)
  }

  predicate Usable(input: Option<Json>) {
    input.Some? && input.value != Null && input.value != Str("")
  }

  /** The payload has grown by context values of the names among the first n, where it had none. */
  ghost predicate FilledUpTo(payload: Payload, filled: Payload, required: seq<string>, n: nat, context: Payload)
    requires n <= |required|
  {
    forall name :: Get(payload, name) == if name in required[..n] then InputOf(filled, context, name)
      else Get(filled, name)
  }

  lemma {:induction false} CompletedFrom(
      payload: Payload, filled: Payload, required: seq<string>, n: nat, context: Payload)
    requires n <= |required| && FilledUpTo(payload, filled, required, n, context)
    requires forall j | 0 <= j < n :: Usable(InputOf(filled, context, required[j]))
    ensures var (after, missing) := Completed(payload, required[n..], context);
            && (missing.None? ==>
                  && FilledUpTo(after, filled, required, |required|, context)
                  && forall j | 0 <= j < |required| :: Usable(InputOf(filled, context, required[j])))
            && (missing.Some? ==>
                exists i :: IsFirstMissing(filled, required, context, i) && missing.value == required[i])
    decreases |required| - n
  {
    if n < |required| {
      var name := required[n];
      var with := WithInput(payload, name, context);
      assert required[n..][0] == name && required[n..][1..] == required[n + 1..];
      assert required[..n + 1] == required[..n] + [name];
      assert FilledUpTo(with, filled, required, n + 1, context);
      assert Get(with, name) == InputOf(filled, context, name);
      if IsGiven(with, name) {
        CompletedFrom(with, filled, required, n + 1, context);
      } else {
        assert IsFirstMissing(filled, required, context, n);
      }
    }
  }

  ghost predicate IsFirstMissing(filled: Payload, required: seq<string>, context: Payload, i: int) {
    && 0 <= i < |required| && !Usable(InputOf(filled, context, required[i]))
    && forall j | 0 <= j < i :: Usable(InputOf(filled, context, required[j]))
  }

  /** A payload that is sent: what the template gives, and the context value of every required name it does not give. */
  ghost predicate Sends(payload: Payload, t: Template, context: Payload) {
    forall name, value :: Get(payload, name) == Some(value) <==>
      || FromTemplate(t.payload, context, name, value)
      || (name in t.required && Get(context, name) == Some(value)
          && forall other :: !FromTemplate(t.payload, context, name, other))
  }

  /** What a required name has: what the template gives, or else the context. */
  ghost predicate Has(t: Template, context: Payload, name: string, value: Json) {
    || FromTemplate(t.payload, context, name, value)
    || (Get(context, name) == Some(value) && forall other :: !FromTemplate(t.payload, context, name, other))
  }

  ghost predicate Provided(t: Template, context: Payload, name: string) {
    exists value :: Has(t, context, name, value) && value != Null && value != Str("")
  }

  lemma {:induction false} InputExactly(t: Template, context: Payload, name: string)
    ensures forall value :: InputOf(Filled(t.payload, context), context, name) == Some(value) <==>
                            Has(t, context, name, value)
    ensures Usable(InputOf(Filled(t.payload, context), context, name)) <==> Provided(t, context, name)
  {
    var filled := Filled(t.payload, context);
    forall value
      ensures Get(filled, name) == Some(value) <==> FromTemplate(t.payload, context, name, value)
    {
      FilledExactly(t.payload, context, name, value);
    }
    if Usable(InputOf(filled, context, name)) {
      assert Has(t, context, name, InputOf(filled, context, name).value);
    }
  }

  /** A payload is sent exactly when every required input is provided; otherwise the first that is not is reported. */
  lemma {:induction false} PayloadExactly(t: Template, context: Payload)
    ensures var (payload, missing) := ResolvePayload(t, context);
            && (missing.None? <==> forall name | name in t.required :: Provided(t, context, name))
            && (missing.None? ==> Sends(payload, t, context))
            && (missing.Some? ==>
                exists i | 0 <= i < |t.required| ::
                  && missing.value == t.required[i] && !Provided(t, context, t.required[i])
                  && forall j | 0 <= j < i :: Provided(t, context, t.required[j]))
  {
    var filled := Filled(t.payload, context);
    var (payload, missing) := ResolvePayload(t, context);
    assert t.required[0..] == t.required;
    CompletedFrom(filled, filled, t.required, 0, context);
    forall name
      ensures Usable(InputOf(filled, context, name)) <==> Provided(t, context, name)
    {
      InputExactly(t, context, name);
    }
    if missing.None? {
      assert t.required[..|t.required|] == t.required;
      PayloadIsSent(t, context, payload);
    }
  }

  lemma {:induction false} PayloadIsSent(t: Template, context: Payload, payload: Payload)
    requires FilledUpTo(payload, Filled(t.payload, context), t.required, |t.required|, context)
    ensures Sends(payload, t, context)
  {
    var filled := Filled(t.payload, context);
    assert t.required[..|t.required|] == t.required;
    forall name, value
      ensures Get(payload, name) == Some(value) <==>
              || FromTemplate(t.payload, context, name, value)
              || (name in t.required && Get(context, name) == Some(value)
                  && forall other :: !FromTemplate(t.payload, context, name, other))
    {
      InputExactly(t, context, name);
      FilledExactly(t.payload, context, name, value);
      assert Get(payload, name) == if name in t.required then InputOf(filled, context, name) else Get(filled, name);
    }
  }

  // ---- the context ---------------------------------------------------------------------------------

  ghost predicate HasPlace(c: Candidate) {
    c.location.Some? && Trim(c.location.value) != ""
  }

  /** What a candidate, or a pair of them, offers to a template. */
  ghost predicate Offers(job: Job, name: string, value: Json) {
    if job.CandidateJob? then
      || (name == "poi_id" && value == Str(if job.candidate.poiId.Some? then job.candidate.poiId.value
                                           else job.candidate.id))
      || (name == "restaurant_id" && value == Str(if job.candidate.restaurantId.Some?
                                                  then job.candidate.restaurantId.value else job.candidate.id))
      || ((name == "party_size" || name == "quantity") && value == Int(job.party))
    else
      || (name == "origin_id" && value == Str(job.origin.id))
      || (name == "destination_id" && value == Str(job.destination.id))
      || (name == "mode" && value == Str("walking"))
      || (name == "origin" && HasPlace(job.origin) && value == Str(job.origin.location.value))
      || (name == "destination" && HasPlace(job.destination) && value == Str(job.destination.location.value))
  }

  lemma {:induction false} ContextExactly(job: Job, name: string, value: Json)
    ensures Get(ContextOf(job), name) == Some(value) <==> Offers(job, name, value)
  {
    assert |"poi_id"| == 6 && |"restaurant_id"| == 13 && |"party_size"| == 10 && |"quantity"| == 8;
    assert |"origin_id"| == 9 && |"destination_id"| == 14 && |"mode"| == 4 && |"origin"| == 6 && |"destination"| == 11;
  }

  /** The results of a job are about its candidate, or its pair. */
  ghost predicate IsAbout(subject: Subject, job: Job) {
    if job.CandidateJob? then subject == OfCandidate(job.candidate.id)
    else subject == OfRoute(job.origin.id, job.destination.id)
  }

  // ---- the numbers of a route ------------------------------------------------------------------------

  predicate AllDigits(text: string) {
    forall i | 0 <= i < |text| :: '0' <= text[i] <= '9'
  }

  function PowerOfTen(n: nat): nat {
    if n == 0 then 1 else 10 * PowerOfTen(n - 1)
  }

  lemma {:induction false} Tenfold(n: int, power: nat)
    ensures n * power * 10 == n * (10 * power)
  {
  }

  /** Digits have their places: those in front count for as many tens as there are digits behind them. */
  lemma {:induction false} DigitsHavePlaces(a: string, b: string)
    ensures Digits(a + b) == Digits(a) * PowerOfTen(|b|) + Digits(b)
  {
    if b == "" {
      assert a + b == a;
    } else {
      var last := |b| - 1;
      assert (a + b)[..|a + b| - 1] == a + b[..last];
      DigitsHavePlaces(a, b[..last]);
      Tenfold(Digits(a), PowerOfTen(last));
    }
  }

  lemma {:induction false} OneDigit(c: char)
    requires '0' <= c <= '9'
    ensures Digits([c]) == c as int - '0' as int
  {
    assert [c][..0] == [];
  }

  /** The whole numbers: integers, floats without a fraction, and texts of digits; a truth value is none of them. */
  ghost predicate IsWhole(value: Json, n: int) {
    || value == Int(n)
    || value == Flt(n as real)
    || (value.Str? && value.s != "" && AllDigits(value.s) && Digits(value.s) == n)
  }

  ghost predicate WholeAt(route: seq<Field>, name: string, n: int) {
    Lookup(route, name).Some? && IsWhole(Lookup(route, name).value, n)
  }

  lemma {:induction false} DigitsExactly(text: string)
    ensures (forall c | c in text :: '0' <= c <= '9') <==> AllDigits(text)
  {
    if forall c | c in text :: '0' <= c <= '9' {
      forall i | 0 <= i < |text| ensures '0' <= text[i] <= '9' {
        assert text[i] in text;
      }
    }
  }

  lemma {:induction false} WholeExactly(value: Option<Json>, n: int)
    ensures IntOrNone(value) == Some(n) <==> value.Some? && IsWhole(value.value, n)
  {
    if value.Some? && value.value.Str? {
      DigitsExactly(value.value.s);
    }
    if value.Some? && value.value.Flt? {
      assert (n as real).Floor == n;
    }
  }

  /** The minutes as given; without them the least number of minutes that covers the seconds. */
  ghost predicate TakesMinutes(route: seq<Field>, m: int) {
    || WholeAt(route, "duration_minutes", m)
    || ((forall n :: !WholeAt(route, "duration_minutes", n))
        && exists seconds :: WholeAt(route, "duration_seconds", seconds) && 60 * (m - 1) < seconds <= 60 * m)
  }

  lemma {:induction false} MinutesExactly(route: seq<Field>, m: int)
    ensures MinutesOf(route) == Some(m) <==> TakesMinutes(route, m)
  {
    forall n ensures IntOrNone(Lookup(route, "duration_minutes")) == Some(n) <==> WholeAt(route, "duration_minutes", n)
    {
      WholeExactly(Lookup(route, "duration_minutes"), n);
    }
    forall n ensures IntOrNone(Lookup(route, "duration_seconds")) == Some(n) <==> WholeAt(route, "duration_seconds", n)
    {
      WholeExactly(Lookup(route, "duration_seconds"), n);
    }
  }

  /** A value that counts as false: none, zero, or empty. */
  ghost predicate CountsAsFalse(value: Json) {
    match value
    case Null => true
    case Bool(b) => !b
    case Int(n) => n == 0
    case Flt(r) => r == 0.0
    case Str(s) => s == ""
    case Arr(items) => items == []
    case Obj(fields) => fields == []
  }

  /** The mode of a route: its own, or, when that says nothing, the one it was asked for. */
  ghost predicate Travels(route: seq<Field>, asked: string, mode: Mode) {
    match Lookup(route, "mode")
    case None => mode == Named(asked)
    case Some(value) =>
      if CountsAsFalse(value) then mode == Named(asked)
      else if value.Str? then mode == Named(value.s)
      else mode == Rendered(value)
  }

  lemma {:induction false} ModeExactly(route: seq<Field>, asked: string, mode: Mode)
    ensures ModeOf(route, asked) == mode <==> Travels(route, asked, mode)
  {
  }

  // ---- what one job tells ------------------------------------------------------------------------------

  /** The object expected from a tool, and the attribute it becomes. */
  ghost predicate Expects(tool: string, key: string, attribute: string) {
    || (tool == "get_poi_detail" && key == "poi" && attribute == "poi_detail")
    || (tool == "check_opening_hours" && key == "opening_hours" && attribute == "opening_hours")
    || (tool == "check_queue" && key == "queue" && attribute == "queue")
    || (tool == "check_table_availability" && key == "table_availability" && attribute == "table_availability")
    || (tool == "check_ticket_availability" && key == "ticket_availability" && attribute == "ticket_availability")
  }

  lemma {:induction false} ExpectedExactly(tool: string, key: string, attribute: string)
    ensures ResponseKeys(tool) == Some((key, attribute)) <==> Expects(tool, key, attribute)
  {
    assert |"get_poi_detail"| == 14 && |"check_opening_hours"| == 19 && |"check_queue"| == 11;
    assert |"check_table_availability"| == 24 && |"check_ticket_availability"| == 25;
  }

  /** The result repeats the reply. */
  ghost predicate Repeats(r: ToolResult, reply: Reply) {
    && r.tool == reply.tool && r.provider == reply.provider && r.status == reply.status
    && r.response == reply.response && r.event == Some(reply.event)
    && r.problem == if reply.error.Some? then Some(Reported(reply.error.value)) else None
  }

  /** The object under the key of the response. */
  ghost predicate Holds(reply: Reply, key: string, fields: seq<Field>) {
    && reply.response.Some? && reply.response.value.Obj?
    && Lookup(reply.response.value.fields, key) == Some(Obj(fields))
  }

  ghost predicate IsUsableReply(reply: Reply) {
    reply.status == "succeeded" || reply.status == "cached"
  }

  /** A job whose input is missing: one local failure, no call. */
  ghost predicate LacksInput(done: Done, job: Job, name: string) {
    var t := job.template;
    && done.request.None? && done.attached.None? && |done.results| == 1 && done.failure == Some(done.results[0])
    && var r := done.results[0];
    && IsAbout(r.subject, job)
    && r == ToolResult(r.subject, t.tool, t.provider, "failed", None, Some(MissingInput(name)), None)
    && (done.entry.Some? <==> job.RouteJob?)
    && (job.RouteJob? ==>
          && Joins(done.entry.value, job) && EmptyEntry(done.entry.value)
          && done.entry.value.provider == t.provider && done.entry.value.status == "failed"
          && done.entry.value.event.None? && done.entry.value.problem == Some(MissingInput(name))
          && exists asked :: AsksFor(t, ContextOf(job), asked) && done.entry.value.mode == Named(asked))
  }

  /** The mode that the template asks for: the text that it gives, or else walking. */
  ghost predicate AsksFor(t: Template, context: Payload, asked: string) {
    if exists text :: text != "" && FromTemplate(t.payload, context, "mode", Str(text))
    then FromTemplate(t.payload, context, "mode", Str(asked))
    else asked == "walking"
  }

  lemma {:induction false} CompletedKeepsMode(payload: Payload, required: seq<string>, context: Payload)
    requires Get(context, "mode") == Some(Str("walking"))
    ensures PayloadMode(Completed(payload, required, context).0) == PayloadMode(payload)
    decreases required
  {
    if required != [] {
      var with := WithInput(payload, required[0], context);
      assert PayloadMode(with) == PayloadMode(payload);
      if IsGiven(with, required[0]) {
        CompletedKeepsMode(with, required[1..], context);
      }
    }
  }

  lemma {:induction false} MissingMode(job: Job)
    requires job.RouteJob?
    ensures AsksFor(job.template, ContextOf(job), PayloadMode(ResolvePayload(job.template, ContextOf(job)).0))
  {
    var t, context := job.template, ContextOf(job);
    var filled := Filled(t.payload, context);
    ContextExactly(job, "mode", Str("walking"));
    CompletedKeepsMode(filled, t.required, context);
    forall text
      ensures Get(filled, "mode") == Some(Str(text)) <==> FromTemplate(t.payload, context, "mode", Str(text))
    {
      FilledExactly(t.payload, context, "mode", Str(text));
    }
  }

  /** The entry is that of the pair. */
  ghost predicate Joins(entry: RouteEntry, job: Job)
    requires job.RouteJob?
  {
    entry.origin == job.origin.id && entry.destination == job.destination.id
  }

  ghost predicate EmptyEntry(entry: RouteEntry) {
    entry.route.None? && entry.distance.None? && entry.minutes.None?
  }

  /** A reply that is not usable is the failure. */
  ghost predicate ReportsFailure(done: Done, reply: Reply) {
    && |done.results| == 1 && done.failure == Some(done.results[0]) && done.attached.None?
    && (done.entry.Some? ==>
          && EmptyEntry(done.entry.value) && done.entry.value.provider == reply.provider
          && done.entry.value.status == reply.status && done.entry.value.event == Some(reply.event)
          && done.entry.value.problem == if reply.error.Some? then Some(Reported(reply.error.value)) else None)
  }

  /** A usable reply without the expected object: a second result is the failure. */
  ghost predicate ReportsMalformed(done: Done, job: Job, reply: Reply, key: string) {
    && |done.results| == 2 && done.failure == Some(done.results[1]) && done.attached.None?
    && var t, r := job.template, done.results[1];
    && IsAbout(r.subject, job)
    && r == ToolResult(r.subject, if job.RouteJob? then t.tool else reply.tool,
                       if job.RouteJob? then t.provider else reply.provider, "failed", reply.response,
                       Some(MalformedResponse(key)), None)
    && (done.entry.Some? ==>
          && EmptyEntry(done.entry.value) && done.entry.value.provider == reply.provider
          && done.entry.value.status == "failed" && done.entry.value.event == Some(reply.event)
          && done.entry.value.problem == Some(MalformedResponse(key)))
  }

  /** A route as the reply describes it. */
  ghost predicate DescribesRoute(entry: RouteEntry, reply: Reply, asked: string, route: seq<Field>) {
    && entry.provider == reply.provider && entry.status == reply.status && entry.event == Some(reply.event)
    && entry.problem.None? && entry.route == Some(Obj(route)) && Travels(route, asked, entry.mode)
    && (forall n :: entry.distance == Some(n) <==> WholeAt(route, "distance_meters", n))
    && (forall m :: entry.minutes == Some(m) <==> TakesMinutes(route, m))
  }

  /** A usable reply to a job: no failure, and the attribute or the entry it expects. */
  ghost predicate Succeeds(done: Done, job: Job, reply: Reply, asked: string) {
    && |done.results| == 1 && done.failure.None?
    && match job
       case RouteJob(_, _, _) =>
         && done.attached.None? && done.entry.Some?
         && exists route :: Holds(reply, "route", route) && DescribesRoute(done.entry.value, reply, asked, route)
       case CandidateJob(_, _, _) =>
         && (forall attribute, fields :: done.attached == Some((attribute, Obj(fields))) <==>
               exists key :: Expects(reply.tool, key, attribute) && Holds(reply, key, fields))
         && (done.attached.Some? ==> done.attached.value.1.Obj?)
  }

  /** The job expects an object under the key. */
  ghost predicate ExpectsKey(job: Job, reply: Reply, key: string) {
    if job.RouteJob? then key == "route" else exists attribute :: Expects(reply.tool, key, attribute)
  }

  ghost predicate LacksObject(job: Job, reply: Reply, key: string) {
    ExpectsKey(job, reply, key) && forall fields :: !Holds(reply, key, fields)
  }

  /** The mode that a route was asked for. */
  ghost predicate AskedMode(payload: Payload, asked: string) {
    if exists text :: text != "" && Get(payload, "mode") == Some(Str(text))
    then Get(payload, "mode") == Some(Str(asked))
    else asked == "walking"
  }

  lemma {:induction false} EntryOfRoute(job: Job, reply: Reply, asked: string, route: seq<Field>)
    requires job.RouteJob?
    ensures var entry := GoodEntry(job, reply, asked, route);
            entry.Some? && DescribesRoute(entry.value, reply, asked, route)
  {
    forall n ensures IntOrNone(Lookup(route, "distance_meters")) == Some(n) <==> WholeAt(route, "distance_meters", n) {
      WholeExactly(Lookup(route, "distance_meters"), n);
    }
    forall m ensures MinutesOf(route) == Some(m) <==> TakesMinutes(route, m) {
      MinutesExactly(route, m);
    }
    ModeExactly(route, asked, ModeOf(route, asked));
  }

  lemma {:induction false} ObjectExactly(reply: Reply, key: string)
    ensures forall fields :: ResponseObject(reply, key) == Some(Obj(fields)) <==> Holds(reply, key, fields)
    ensures ResponseObject(reply, key).Some? ==> ResponseObject(reply, key).value.Obj?
  {
  }

  lemma {:induction false} AttachedExactly(reply: Reply, expected: Option<(string, string)>)
    requires expected == ResponseKeys(reply.tool)
    ensures forall key, attribute :: expected == Some((key, attribute)) <==> Expects(reply.tool, key, attribute)
  {
    forall key, attribute ensures expected == Some((key, attribute)) <==> Expects(reply.tool, key, attribute) {
      ExpectedExactly(reply.tool, key, attribute);
    }
  }

  /** What is recorded of a reply. */
  ghost predicate Records(done: Done, job: Job, reply: Reply, asked: string) {
    && done.results != [] && Repeats(done.results[0], reply) && IsAbout(done.results[0].subject, job)
    && (!IsUsableReply(reply) ==> ReportsFailure(done, reply))
    && (IsUsableReply(reply) && (forall key :: !LacksObject(job, reply, key)) ==> Succeeds(done, job, reply, asked))
    && (forall key | IsUsableReply(reply) && LacksObject(job, reply, key) :: ReportsMalformed(done, job, reply, key))
    && (done.entry.Some? <==> job.RouteJob?)
    && (job.RouteJob? ==>
          && Joins(done.entry.value, job)
          && (done.failure.Some? ==> done.entry.value.mode == Named(asked)))
  }

  lemma {:induction false} RouteReplyRecorded(job: Job, request: Request, asked: string, reply: Reply)
    requires job.RouteJob?
    ensures Records(AfterReply(job, request, asked, reply), job, reply, asked)
  {
    ObjectExactly(reply, "route");
    var route := ResponseObject(reply, "route");
    if IsUsable(reply.status) && route.Some? {
      EntryOfRoute(job, reply, asked, route.value.fields);
      assert Holds(reply, "route", route.value.fields);
    }
    if route.None? {
      assert LacksObject(job, reply, "route");
    }
  }

  lemma {:induction false} UnusableRecorded(job: Job, request: Request, asked: string, reply: Reply)
    requires job.CandidateJob? && !IsUsableReply(reply)
    ensures Records(AfterReply(job, request, asked, reply), job, reply, asked)
  {
  }

  lemma {:induction false} UnexpectedRecorded(job: Job, request: Request, asked: string, reply: Reply)
    requires job.CandidateJob? && IsUsableReply(reply) && ResponseKeys(reply.tool).None?
    ensures Records(AfterReply(job, request, asked, reply), job, reply, asked)
  {
    AttachedExactly(reply, None);
  }

  lemma {:induction false} AttachmentRecorded(
      job: Job, request: Request, asked: string, reply: Reply, key: string, attribute: string)
    requires job.CandidateJob? && IsUsableReply(reply) && ResponseKeys(reply.tool) == Some((key, attribute))
    ensures Records(AfterReply(job, request, asked, reply), job, reply, asked)
  {
    AttachedExactly(reply, Some((key, attribute)));
    ObjectExactly(reply, key);
    assert forall other :: ExpectsKey(job, reply, other) <==> other == key by {
      assert Expects(reply.tool, key, attribute);
    }
    if ResponseObject(reply, key).None? {
      assert LacksObject(job, reply, key);
    } else {
      AttachmentSucceeds(job, request, asked, reply, key, attribute);
    }
  }

  lemma {:induction false} AttachmentSucceeds(
      job: Job, request: Request, asked: string, reply: Reply, key: string, attribute: string)
    requires job.CandidateJob? && IsUsableReply(reply) && ResponseKeys(reply.tool) == Some((key, attribute))
    requires ResponseObject(reply, key).Some?
    ensures Succeeds(AfterReply(job, request, asked, reply), job, reply, asked)
    ensures Holds(reply, key, ResponseObject(reply, key).value.fields)
  {
    ObjectExactly(reply, key);
    AttachedExactly(reply, Some((key, attribute)));
  }

  lemma {:induction false} CandidateReplyRecorded(job: Job, request: Request, asked: string, reply: Reply)
    requires job.CandidateJob?
    ensures Records(AfterReply(job, request, asked, reply), job, reply, asked)
  {
    var expected := ResponseKeys(reply.tool);
    if !IsUsableReply(reply) {
      UnusableRecorded(job, request, asked, reply);
    } else if expected.None? {
      UnexpectedRecorded(job, request, asked, reply);
    } else {
      AttachmentRecorded(job, request, asked, reply, expected.value.0, expected.value.1);
    }
  }

  ghost predicate AllProvided(t: Template, context: Payload) {
    forall name | name in t.required :: Provided(t, context, name)
  }

  /** It sends the request of the job's template, and records what the gateway replies. */
  ghost predicate SendsAndRecords(done: Done, job: Job, calls: seq<Request>, world: World) {
    var t := job.template;
    && done.request.Some? && done.request.value.tool == t.tool && done.request.value.provider == t.provider
    && Sends(done.request.value.payload, t, ContextOf(job))
    && exists asked :: AskedMode(done.request.value.payload, asked)
                       && Records(done, job, world(calls + [done.request.value]), asked)
  }

  /** It stops at the first required input that is not provided. */
  ghost predicate StopsAtMissing(done: Done, job: Job) {
    var t, context := job.template, ContextOf(job);
    exists i | 0 <= i < |t.required| ::
      && !Provided(t, context, t.required[i]) && LacksInput(done, job, t.required[i])
      && forall j | 0 <= j < i :: Provided(t, context, t.required[j])
  }

  lemma {:induction false} SentAsTold(job: Job, calls: seq<Request>, world: World, payload: Payload)
    requires ResolvePayload(job.template, ContextOf(job)) == (payload, None)
    requires Sends(payload, job.template, ContextOf(job))
    ensures SendsAndRecords(Perform(job, calls, world), job, calls, world)
  {
    var request := Request(job.template.tool, job.template.provider, payload);
    var asked := PayloadMode(payload);
    if job.RouteJob? {
      RouteReplyRecorded(job, request, asked, world(calls + [request]));
    } else {
      CandidateReplyRecorded(job, request, asked, world(calls + [request]));
    }
    assert AskedMode(payload, asked);
  }

  lemma {:induction false} MissingAsTold(job: Job, calls: seq<Request>, world: World, name: string)
    requires ResolvePayload(job.template, ContextOf(job)).1 == Some(name)
    ensures LacksInput(Perform(job, calls, world), job, name)
  {
    if job.RouteJob? {
      MissingMode(job);
    }
  }

  /** One job, from its template and the gateway: what it asks for, and what is recorded of the reply. */
  lemma {:induction false} PerformedExactly(job: Job, calls: seq<Request>, world: World)
    ensures var done := Perform(job, calls, world);
            if AllProvided(job.template, ContextOf(job)) then SendsAndRecords(done, job, calls, world)
            else StopsAtMissing(done, job)
  {
    var t, context := job.template, ContextOf(job);
    PayloadExactly(t, context);
    var (payload, missing) := ResolvePayload(t, context);
    if missing.None? {
      SentAsTold(job, calls, world, payload);
    } else {
      MissingAsTold(job, calls, world, missing.value);
    }
  }

  // ---- which jobs there are ------------------------------------------------------------------------------

  /** The positions ascend, and each selected candidate stands where its id occurs for the first time. */
  ghost predicate FirstOfEachId(cs: seq<Candidate>, selected: seq<Candidate>, at: seq<nat>) {
    && |at| == |selected|
    && (forall i, j | 0 <= i < j < |at| :: at[i] < at[j])
    && (forall i | 0 <= i < |at| ::
          at[i] < |cs| && cs[at[i]] == selected[i] && forall k | 0 <= k < at[i] :: cs[k].id != selected[i].id)
  }

  lemma {:induction false} OneMoreCandidate(cs: seq<Candidate>, selected: seq<Candidate>, at: seq<nat>, c: Candidate)
    requires FirstOfEachId(cs, selected, at)
    ensures FirstOfEachId(cs + [c], selected, at)
    ensures (forall x | x in cs :: x.id != c.id) ==> FirstOfEachId(cs + [c], selected + [c], at + [|cs|])
  {
    var more := cs + [c];
    assert forall k | 0 <= k < |cs| :: more[k] == cs[k];
    if forall x | x in cs :: x.id != c.id {
      assert forall k | 0 <= k < |cs| :: cs[k] in cs;
    }
  }

  lemma {:induction false} DistinctExactly(cs: seq<Candidate>) returns (at: seq<nat>)
    ensures FirstOfEachId(cs, DistinctById(cs), at)
    ensures IdsOf(DistinctById(cs)) == IdsOf(cs)
  {
    at := [];
    if cs != [] {
      var before, c := cs[..|cs| - 1], cs[|cs| - 1];
      at := DistinctExactly(before);
      assert cs == before + [c];
      IdsGrow(before, c);
      OneMoreCandidate(before, DistinctById(before), at, c);
      if c.id !in IdsOf(DistinctById(before)) {
        IdsGrow(DistinctById(before), c);
        assert forall x | x in before :: x.id in IdsOf(before);
        at := at + [|before|];
      }
    }
  }

  /** The first candidates of distinct ids, in order: all of them, or as many as the limit allows. */
  lemma {:induction false} SelectedExactly(cs: seq<Candidate>, limit: int) returns (at: seq<nat>)
    ensures FirstOfEachId(cs, Selected(cs, limit), at)
    ensures |Selected(cs, limit)| <= (if limit < 0 then 0 else limit)
    ensures |Selected(cs, limit)| < limit ==> IdsOf(Selected(cs, limit)) == IdsOf(cs)
  {
    at := DistinctExactly(cs);
    if limit <= 0 {
      at := [];
    } else if |DistinctById(cs)| > limit {
      at := at[..limit];
    }
  }

  /** The template of a tool is the last one given for it. */
  lemma {:induction false} TemplatesExactly(templates: seq<Template>, tool: string)
    ensures tool in TemplatesByTool(templates) <==> exists i | 0 <= i < |templates| :: templates[i].tool == tool
    ensures tool in TemplatesByTool(templates) ==>
              exists i | 0 <= i < |templates| ::
                && templates[i] == TemplatesByTool(templates)[tool] && templates[i].tool == tool
                && forall j | i < j < |templates| :: templates[j].tool != tool
  {
    if templates != [] {
      var last := |templates| - 1;
      TemplatesExactly(templates[..last], tool);
      if templates[last].tool != tool && tool in TemplatesByTool(templates) {
        var before := templates[..last];
        var i :| 0 <= i < last && before[i] == TemplatesByTool(before)[tool] && before[i].tool == tool
          && forall j | i < j < last :: before[j].tool != tool;
        assert templates[i] == before[i] && forall j | i < j < last :: templates[j] == before[j];
      }
    }
  }

  /** The route template is the first one for routes. */
  lemma {:induction false} RouteTemplateExactly(templates: seq<Template>)
    ensures RouteTemplate(templates).None? <==> forall t | t in templates :: t.tool != "check_route"
    ensures RouteTemplate(templates).Some? ==>
              exists i | 0 <= i < |templates| ::
                && templates[i] == RouteTemplate(templates).value && templates[i].tool == "check_route"
                && forall j | 0 <= j < i :: templates[j].tool != "check_route"
  {
    if templates != [] {
      var rest := templates[1..];
      assert templates == [templates[0]] + rest;
      RouteTemplateExactly(rest);
      if templates[0].tool != "check_route" && RouteTemplate(rest).Some? {
        var i :| 0 <= i < |rest| && rest[i] == RouteTemplate(rest).value && rest[i].tool == "check_route"
          && forall j | 0 <= j < i :: rest[j].tool != "check_route";
        assert templates[i + 1] == rest[i];
        assert forall j | 0 < j < i + 1 :: templates[j] == rest[j - 1];
      }
    }
  }

  /** The jobs of a candidate: one for each tool that has a template, in the order of the tools. */
  lemma {:induction false} JobsInToolOrder(
      c: Candidate, templates: map<string, Template>, a: seq<string>, b: seq<string>, party: nat)
    ensures JobsOf(c, templates, a + b, party) == JobsOf(c, templates, a, party) + JobsOf(c, templates, b, party)
  {
    if b == [] {
      assert a + b == a;
    } else {
      assert (a + b)[..|a + b| - 1] == a + b[..|b| - 1];
      JobsInToolOrder(c, templates, a, b[..|b| - 1], party);
    }
  }

  lemma {:induction false} JobOfTool(c: Candidate, templates: map<string, Template>, tool: string, party: nat)
    ensures JobsOf(c, templates, [tool], party)
            == if tool in templates then [CandidateJob(templates[tool], c, party)] else []
  {
    assert [tool][..0] == [];
  }

  lemma {:induction false} JoinedInOrder<T>(a: seq<T>, b: seq<T>, c: seq<T>)
    ensures a + b + c == a + (b + c)
  {
  }

  /** The jobs of candidates: those of each, in the order of the candidates. */
  lemma {:induction false} JobsInCandidateOrder(
      a: seq<Candidate>, b: seq<Candidate>, templates: map<string, Template>, order: seq<string>, party: nat)
    ensures JobsOfAll(a + b, templates, order, party)
            == JobsOfAll(a, templates, order, party) + JobsOfAll(b, templates, order, party)
  {
    if b == [] {
      assert a + b == a;
    } else {
      var last := |b| - 1;
      assert (a + b)[..|a + b| - 1] == a + b[..last] && (a + b)[|a + b| - 1] == b[last];
      JobsInCandidateOrder(a, b[..last], templates, order, party);
      JoinedInOrder(JobsOfAll(a, templates, order, party), JobsOfAll(b[..last], templates, order, party),
                    JobsOf(b[last], templates, order, party));
    }
  }

  lemma {:induction false} JobsOfOne(c: Candidate, templates: map<string, Template>, order: seq<string>, party: nat)
    ensures JobsOfAll([c], templates, order, party) == JobsOf(c, templates, order, party)
  {
    assert [c][..0] == [];
  }
}
