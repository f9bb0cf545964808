/** Stored memories and the operations by which a user governs them; every applied operation leaves an event. */
module MemoryControl {
  import opened Wrappers
  import opened JsonTrees
  import opened Plans
  import opened MemoryAudit

  datatype ControlAction = Activate | Disable | Suppress | Expire | MarkCandidate

  datatype EventAction = CreateEvent | UpdateEvent | ControlEvent(action: ControlAction)

  /** What changed the row, and between which statuses; a creation has no status before it. */
  datatype Event = Event(action: EventAction, from: Option<Lifecycle>, to: Lifecycle, reason: Option<string>,
      changed: seq<string>)

  datatype Minimization = Minimization(
    action: EventAction, reason: Option<string>, normalized: string, droppedText: bool, droppedKeys: set<string>)

  datatype Governance = Governance(control: seq<Event>, minimization: seq<Minimization>)

  /** A row of the memory table; `governance` is None when its metadata is empty. */
  datatype Row = Row(
    userId: Id, memoryType: string, key: string, value: Json, text: Option<string>, confidence: real,
    expiresAt: Option<Timestamp>, status: Lifecycle, sourceRun: Option<Id>, governance: Option<Governance>)

  /**
   * How the object-relational mapper decides whether an assigned document is written: every one is, or only one that
   * differs from the document that was loaded.
   */
  datatype Mapper = EveryAssignment | ChangedDocuments

  /** Rows in creation order; rows are never removed, so the position serves as the memory id. */
  type Rows = seq<Row>

  datatype CreateRequest = CreateRequest(
    memoryType: string, key: string, value: Json, text: Option<string>, confidence: real, status: string,
    expiresAt: Option<Timestamp>, sourceRun: Option<Id>, reason: Option<string>)

  datatype UpdateRequest = UpdateRequest(
    value: Json, text: Option<string>, confidence: real, expiresAt: Option<Timestamp>, reason: Option<string>)

  datatype ControlError =
    | NotFound
    | UnsupportedType
    | UnsupportedKey
    | Conflicting
    | UnsupportedValue
    | AlreadyExists
    | UnsupportedStatus
    | ConfidenceOutOfRange

  datatype Mutation = Mutation(id: nat, applied: bool)

  // ---- columns -----------------------------------------------------------------------------------

  /** A `Numeric(5, 4)` column: four decimals, halves away from zero. */
  function Rounded(c: real): real {
    if c >= 0.0 then (c * 10000.0 + 0.5).Floor as real / 10000.0
    else -((-c * 10000.0 + 0.5).Floor as real / 10000.0)
  }

  predicate FitsColumn(c: real) {
    -10.0 < Rounded(c) < 10.0
  }

  lemma {:induction false} RoundedTwice(c: real)
    ensures Rounded(Rounded(c)) == Rounded(c)
  {
    var n := if c >= 0.0 then (c * 10000.0 + 0.5).Floor else (-c * 10000.0 + 0.5).Floor;
    assert n >= 0 && (n as real + 0.5).Floor == n;
    assert (n as real / 10000.0) * 10000.0 == n as real;
  }

  /** A stored time always has a zone; one given without is taken in the zone of the session. */
  function StoredTime(t: Option<Timestamp>): Option<Timestamp> {
    if t.Some? then Some(t.value.(zoned := true)) else None
  }

  function FindRow(rows: Rows, userId: Id, memoryType: string, key: string): (found: Option<nat>)
    ensures found.Some? ==>
              && found.value < |rows|
              && rows[found.value].userId == userId && rows[found.value].memoryType == memoryType
                 && rows[found.value].key == key
    ensures found.None? ==>
            forall i | 0 <= i < |rows| ::
              !(rows[i].userId == userId && rows[i].memoryType == memoryType && rows[i].key == key)
  {
    if rows == [] then None
    else
      var last := |rows| - 1;
      var before := FindRow(rows[..last], userId, memoryType, key);
      if before.Some? then before
      else if rows[last].userId == userId && rows[last].memoryType == memoryType && rows[last].key == key
        then Some(last)
      else None
  }

  predicate OwnedBy(rows: Rows, userId: Id, id: nat) {
    id < |rows| && rows[id].userId == userId
  }

  // ---- the events ----------------------------------------------------------------------------------

  function EventsOf(row: Row): seq<Event> {
    if row.governance.Some? then row.governance.value.control else []
  }

  /** `_rebuild_metadata`. */
  function Rebuilt(governance: Option<Governance>): Governance {
    if governance.Some? then governance.value else Governance([], [])
  }

  /**
   * The metadata of a row that is replaced. Rebuilt metadata shares its lists with the document it was loaded from, so
   * events are appended to both, and a mapper that compares the two sees no change; a document without lists gets new
   * ones.
   */
  function Stored(mapper: Mapper, before: Option<Governance>, after: Option<Governance>): Option<Governance> {
    if mapper.ChangedDocuments? && before.Some? && after.Some? then before else after
  }

  function Written(mapper: Mapper, before: Row, row: Row): Row {
    row.(governance := Stored(mapper, before.governance, row.governance))
  }

  function WithEvent(g: Governance, e: Event): Governance {
    g.(control := g.control + [e])
  }

  function WithMinimization(g: Governance, m: Minimization): Governance {
    g.(minimization := g.minimization + [m])
  }

  const CREATE_CHANGED_FIELDS: seq<string> :=
    ["memory_type", "key", "value_json", "text", "confidence", "status", "expires_at", "source_run_id",
     "source_langsmith_trace_id"]

  function Canonical(normalized: string): Json {
    Obj([Field("preference", Str(normalized))])
  }

  function DroppedKeys(value: Json): set<string> {
    if value.Obj? then (set f | f in value.fields :: f.name) - {"preference"} else {}
  }

  /** `_validate_memory_payload`: the normalised value. */
  function ValidPayload(
      memoryType: string, key: string, value: Json, text: Option<string>): Result<string, ControlError> {
    if memoryType != "preference" then Err(UnsupportedType)
    else if key !in SUPPORTED_KEYS then Err(ControlError.UnsupportedKey)
    else
      match NormalizePreference(key, value, text)
      case Err(_) => Err(Conflicting)
      case Ok(None) => Err(UnsupportedValue)
      case Ok(Some(normalized)) => Ok(normalized)
  }

  function MinimizationFor(
      action: EventAction, reason: Option<string>, normalized: string, value: Json,
      text: Option<string>): Minimization {
    Minimization(action, reason, normalized, text.Some? && text.value != "", DroppedKeys(value))
  }

  // ---- the operations -------------------------------------------------------------------------------

  function CreatedRow(userId: Id, q: CreateRequest, normalized: string, status: Lifecycle): Row {
    Row(userId, q.memoryType, q.key, Canonical(normalized), None, Rounded(q.confidence), StoredTime(q.expiresAt),
        status, q.sourceRun,
        Some(WithMinimization(
          WithEvent(Rebuilt(None), Event(CreateEvent, None, status, q.reason, CREATE_CHANGED_FIELDS)),
          MinimizationFor(CreateEvent, q.reason, normalized, q.value, q.text))))
  }

  function Create(rows: Rows, userId: Id, q: CreateRequest): (Rows, Result<Mutation, ControlError>) {
    match ValidPayload(q.memoryType, q.key, q.value, q.text)
    case Err(e) => (rows, Err(e))
    case Ok(normalized) =>
      if FindRow(rows, userId, q.memoryType, q.key).Some? then (rows, Err(AlreadyExists))
      else if NormalizeStatus(q.status).None? then (rows, Err(UnsupportedStatus))
      else if !FitsColumn(q.confidence) then (rows, Err(ConfidenceOutOfRange))
      else (rows + [CreatedRow(userId, q, normalized, NormalizeStatus(q.status).value)], Ok(Mutation(|rows|, true)))
  }

  function ChangedFields(row: Row, q: UpdateRequest, normalized: string): seq<string> {
    (if row.value != Canonical(normalized) then ["value_json"] else [])
    + (if row.text.Some? then ["text"] else [])
    + (if row.confidence != q.confidence then ["confidence"] else [])
    + (if row.expiresAt != q.expiresAt then ["expires_at"] else [])
  }

  function UpdatedRow(row: Row, q: UpdateRequest, normalized: string): Row {
    row.(value := Canonical(normalized), text := None, confidence := Rounded(q.confidence),
         expiresAt := StoredTime(q.expiresAt),
         governance := Some(WithMinimization(
           WithEvent(Rebuilt(row.governance),
                     Event(UpdateEvent, Some(row.status), row.status, q.reason, ChangedFields(row, q, normalized))),
           MinimizationFor(UpdateEvent, q.reason, normalized, q.value, q.text))))
  }

  function Update(
      rows: Rows, userId: Id, id: nat, q: UpdateRequest, mapper: Mapper): (Rows, Result<Mutation, ControlError>) {
    if !OwnedBy(rows, userId, id) then (rows, Err(NotFound))
    else
      match ValidPayload(rows[id].memoryType, rows[id].key, q.value, q.text)
      case Err(e) => (rows, Err(e))
      case Ok(normalized) =>
        if ChangedFields(rows[id], q, normalized) == [] then (rows, Ok(Mutation(id, false)))
        else if !FitsColumn(q.confidence) then (rows, Err(ConfidenceOutOfRange))
        else (rows[id := Written(mapper, rows[id], UpdatedRow(rows[id], q, normalized))], Ok(Mutation(id, true)))
  }

  function TargetStatus(action: ControlAction): Lifecycle {
    match action
    case Activate => Active
    case Disable => Disabled
    case Suppress => Ignored
    case Expire => Expired
    case MarkCandidate => Candidate
  }

  function ControlledRow(row: Row, action: ControlAction, reason: Option<string>): Row {
    row.(status := TargetStatus(action),
         governance := Some(WithEvent(Rebuilt(row.governance),
                                      Event(ControlEvent(action), Some(row.status), TargetStatus(action), reason,
                                            ["status"]))))
  }

  function Control(
      rows: Rows, userId: Id, id: nat, action: ControlAction, reason: Option<string>, mapper: Mapper): (Rows,
      Result<Mutation, ControlError>) {
    if !OwnedBy(rows, userId, id) then (rows, Err(NotFound))
    else if rows[id].status == TargetStatus(action) then (rows, Ok(Mutation(id, false)))
    else (rows[id := Written(mapper, rows[id], ControlledRow(rows[id], action, reason))], Ok(Mutation(id, true)))
  }

  /** What a user asks for by each of the actions. */
  ghost predicate Sets(action: ControlAction, status: Lifecycle) {
    match action
    case Activate => status == Active
    case Disable => status == Disabled
    case Suppress => status == Ignored
    case Expire => status == Expired
    case MarkCandidate => status == Candidate
  }

  /** The row but for its status and its metadata. */
  ghost predicate SameButStatus(before: Row, after: Row) {
    after == before.(status := after.status, governance := after.governance)
  }

  /** One event more, or none where the mapper does not see the change. */
  ghost predicate TracesControl(
      before: Row, after: Row, action: ControlAction, reason: Option<string>, mapper: Mapper)
  {
    if mapper.ChangedDocuments? && before.governance.Some? then after.governance == before.governance
    else
      && after.governance.Some?
      && var had, has := if before.governance.Some? then before.governance.value else Governance([], []),
           after.governance.value;
      && has.minimization == had.minimization
      && |has.control| == |had.control| + 1 && has.control[..|had.control|] == had.control
      && var e := has.control[|had.control|];
      && e.action == ControlEvent(action) && e.from == Some(before.status) && e.to == after.status
      && e.reason == reason && e.changed == ["status"]
  }

  /**
   * An action is accepted exactly on an item of one's own, which then has the status it asks for; it is applied exactly
   * when the item did not have it before. Nothing else of the table changes.
   */
  lemma {:induction false} ControlledExactly(
      rows: Rows, userId: Id, id: nat, action: ControlAction, reason: Option<string>, mapper: Mapper)
    ensures var (after, result) := Control(rows, userId, id, action, reason, mapper);
            && (result.Ok? <==> id < |rows| && rows[id].userId == userId) && (result.Err? ==> result == Err(NotFound))
            && |after| == |rows| && (forall i | 0 <= i < |rows| && i != id :: after[i] == rows[i])
            && (result.Err? ==> after == rows)
            && (result.Ok? ==>
                  && Sets(action, after[id].status) && SameButStatus(rows[id], after[id])
                  && result.value.id == id && (result.value.applied <==> !Sets(action, rows[id].status))
                  && (!result.value.applied ==> after == rows)
                  && (result.value.applied ==> TracesControl(rows[id], after[id], action, reason, mapper)))
  {
  }

  // ---- what creating and updating does -------------------------------------------------------------------

  ghost predicate HasFourDecimals(c: real) {
    (c * 10000.0).Floor as real == c * 10000.0
  }

  /** The nearest of the numbers with four decimals; halfway between two, the one further from zero. */
  ghost predicate RoundsTo(c: real, rounded: real) {
    && HasFourDecimals(rounded)
    && if c >= 0.0 then -0.00005 < rounded - c <= 0.00005 else -0.00005 <= rounded - c < 0.00005
  }

  lemma {:induction false} RoundedExactly(c: real)
    ensures RoundsTo(c, Rounded(c))
    ensures FitsColumn(c) <==> -9.99995 < c < 9.99995
  {
    var n := if c >= 0.0 then (c * 10000.0 + 0.5).Floor else -(-c * 10000.0 + 0.5).Floor;
    assert Rounded(c) == n as real / 10000.0 && Rounded(c) * 10000.0 == n as real;
    assert FitsColumn(c) <==> -100000 < n < 100000;
  }

  ghost predicate Supported(memoryType: string, key: string) {
    memoryType == "preference" && (key == "activity_style" || key == "spouse_lighter_meals")
  }

  /** A supported preference whose value and text have that one meaning. */
  ghost predicate Accepts(memoryType: string, key: string, value: Json, text: Option<string>, meaning: string) {
    Supported(memoryType, key) && Means(key, value, text, Some(meaning))
  }

  ghost predicate IsAccepted(memoryType: string, key: string, value: Json, text: Option<string>) {
    exists meaning :: Accepts(memoryType, key, value, text, meaning)
  }

  /** Why a payload is refused. */
  ghost predicate Refuses(memoryType: string, key: string, value: Json, text: Option<string>, e: ControlError) {
    match e
    case UnsupportedType => memoryType != "preference"
    case UnsupportedKey => memoryType == "preference" && key != "activity_style" && key != "spouse_lighter_meals"
    case Conflicting => Supported(memoryType, key) && forall meaning :: !Means(key, value, text, meaning)
    case UnsupportedValue => Supported(memoryType, key) && Means(key, value, text, None)
    case _ => false
  }

  lemma {:induction false} PayloadExactly(memoryType: string, key: string, value: Json, text: Option<string>)
    ensures var payload := ValidPayload(memoryType, key, value, text);
            && (forall meaning :: payload == Ok(meaning) <==> Accepts(memoryType, key, value, text, meaning))
            && (forall e :: payload == Err(e) <==> Refuses(memoryType, key, value, text, e))
            && (payload.Ok? <==> IsAccepted(memoryType, key, value, text))
  {
    NormalizedExactly(key, value, text);
    var payload := ValidPayload(memoryType, key, value, text);
    if payload.Ok? {
      assert Accepts(memoryType, key, value, text, payload.value);
    }
    var normalized := NormalizePreference(key, value, text);
    assert normalized.Ok? ==> Means(key, value, text, normalized.value);
  }

  /** What is told of the parts that are not kept: whether there was a text, and the keys besides the preference. */
  ghost predicate TellsDropped(
      m: Minimization, action: EventAction, reason: Option<string>, meaning: string, value: Json, text: Option<string>)
  {
    && m.action == action && m.reason == reason && m.normalized == meaning
    && (m.droppedText <==> text.Some? && text.value != "")
    && forall name :: name in m.droppedKeys <==>
         value.Obj? && name != "preference" && exists f | f in value.fields :: f.name == name
  }

  lemma {:induction false} DroppedExactly(
      action: EventAction, reason: Option<string>, meaning: string, value: Json, text: Option<string>)
    ensures TellsDropped(MinimizationFor(action, reason, meaning, value, text), action, reason, meaning, value, text)
  {
  }

  ghost predicate IsPlace(row: Row, userId: Id, memoryType: string, key: string) {
    row.userId == userId && row.memoryType == memoryType && row.key == key
  }

  ghost predicate PlaceTaken(rows: Rows, userId: Id, memoryType: string, key: string) {
    exists i | 0 <= i < |rows| :: IsPlace(rows[i], userId, memoryType, key)
  }

  lemma {:induction false} FindRowExactly(rows: Rows, userId: Id, memoryType: string, key: string)
    ensures FindRow(rows, userId, memoryType, key).Some? <==> PlaceTaken(rows, userId, memoryType, key)
  {
    var found := FindRow(rows, userId, memoryType, key);
    if found.Some? {
      assert IsPlace(rows[found.value], userId, memoryType, key);
    }
  }

  ghost predicate IsStatus(text: string) {
    exists status :: StoredAs(text, status)
  }

  lemma {:induction false} StatusIsKnownExactly(text: string)
    ensures NormalizeStatus(text).Some? <==> IsStatus(text)
  {
    forall status ensures NormalizeStatus(text) == Some(status) <==> StoredAs(text, status) {
      StatusExactly(text, status);
    }
    if NormalizeStatus(text).Some? {
      assert StoredAs(text, NormalizeStatus(text).value);
    }
  }

  /** Why a creation is refused: its payload, then a memory that is there, then its status, then its confidence. */
  ghost predicate RefusesCreation(rows: Rows, userId: Id, q: CreateRequest, e: ControlError) {
    match e
    case AlreadyExists =>
      IsAccepted(q.memoryType, q.key, q.value, q.text) && PlaceTaken(rows, userId, q.memoryType, q.key)
    case UnsupportedStatus =>
      && IsAccepted(q.memoryType, q.key, q.value, q.text) && !PlaceTaken(rows, userId, q.memoryType, q.key)
      && !IsStatus(q.status)
    case ConfidenceOutOfRange =>
      && IsAccepted(q.memoryType, q.key, q.value, q.text) && !PlaceTaken(rows, userId, q.memoryType, q.key)
      && IsStatus(q.status) && !(-9.99995 < q.confidence < 9.99995)
    case _ => Refuses(q.memoryType, q.key, q.value, q.text, e)
  }

  lemma {:induction false} CreationRefusedExactly(rows: Rows, userId: Id, q: CreateRequest, e: ControlError)
    ensures Create(rows, userId, q).1 == Err(e) <==> RefusesCreation(rows, userId, q, e)
    ensures Create(rows, userId, q).1.Err? ==> Create(rows, userId, q).0 == rows
  {
    PayloadExactly(q.memoryType, q.key, q.value, q.text);
    FindRowExactly(rows, userId, q.memoryType, q.key);
    StatusIsKnownExactly(q.status);
    RoundedExactly(q.confidence);
  }

  /** The stored time is the given one, with a zone. */
  ghost predicate SameTime(given: Option<Timestamp>, stored: Option<Timestamp>) {
    && (given.Some? <==> stored.Some?)
    && (given.Some? ==> stored.value.at == given.value.at && stored.value.zoned)
  }

  /** A document with the preference alone. */
  ghost predicate HoldsPreference(value: Json, meaning: string) {
    && value.Obj? && |value.fields| == 1
    && value.fields[0].name == "preference" && value.fields[0].value == Str(meaning)
  }

  /** The memory that a request asks for, with the event of its creation and the account of what was dropped. */
  ghost predicate IsCreated(row: Row, userId: Id, q: CreateRequest, meaning: string) {
    && row.userId == userId && row.memoryType == q.memoryType && row.key == q.key && row.sourceRun == q.sourceRun
    && HoldsPreference(row.value, meaning) && row.text.None?
    && RoundsTo(q.confidence, row.confidence) && SameTime(q.expiresAt, row.expiresAt)
    && StoredAs(q.status, row.status)
    && row.governance.Some? && |row.governance.value.control| == 1 && |row.governance.value.minimization| == 1
    && TellsCreation(row.governance.value.control[0], row.status, q.reason)
    && TellsDropped(row.governance.value.minimization[0], CreateEvent, q.reason, meaning, q.value, q.text)
  }

  ghost predicate TellsCreation(e: Event, status: Lifecycle, reason: Option<string>) {
    && e.action == CreateEvent && e.from == None && e.to == status && e.reason == reason
    && e.changed == ["memory_type", "key", "value_json", "text", "confidence", "status", "expires_at",
                     "source_run_id", "source_langsmith_trace_id"]
  }

  /** An accepted creation adds that one memory behind all others. */
  lemma {:induction false} CreatedExactly(rows: Rows, userId: Id, q: CreateRequest)
    requires Create(rows, userId, q).1.Ok?
    ensures var (after, result) := Create(rows, userId, q);
            && result.value.id == |rows| && result.value.applied
            && |after| == |rows| + 1 && after[..|rows|] == rows
            && exists meaning | Accepts(q.memoryType, q.key, q.value, q.text, meaning) ::
                 IsCreated(after[|rows|], userId, q, meaning)
  {
    PayloadExactly(q.memoryType, q.key, q.value, q.text);
    RoundedExactly(q.confidence);
    var status := NormalizeStatus(q.status).value;
    StatusExactly(q.status, status);
    var meaning := ValidPayload(q.memoryType, q.key, q.value, q.text).value;
    DroppedExactly(CreateEvent, q.reason, meaning, q.value, q.text);
    assert IsCreated(CreatedRow(userId, q, meaning, status), userId, q, meaning);
  }

  ghost predicate FieldChanges(row: Row, q: UpdateRequest, meaning: string, field: string) {
    || (field == "value_json" && row.value != Obj([Field("preference", Str(meaning))]))
    || (field == "text" && row.text.Some?)
    || (field == "confidence" && row.confidence != q.confidence)
    || (field == "expires_at" && row.expiresAt != q.expiresAt)
  }

  ghost predicate Changes(row: Row, q: UpdateRequest, meaning: string) {
    exists field :: FieldChanges(row, q, meaning, field)
  }

  ghost predicate InFieldOrder(changed: seq<string>) {
    var fields := ["value_json", "text", "confidence", "expires_at"];
    forall i, j, k, l | 0 <= i < j < |changed| && 0 <= k < |fields| && 0 <= l < |fields|
                        && changed[i] == fields[k] && changed[j] == fields[l] :: k < l
  }

  lemma {:induction false} ChangedExactly(row: Row, q: UpdateRequest, meaning: string)
    ensures forall field :: field in ChangedFields(row, q, meaning) <==> FieldChanges(row, q, meaning, field)
    ensures ChangedFields(row, q, meaning) == [] <==> !Changes(row, q, meaning)
    ensures InFieldOrder(ChangedFields(row, q, meaning))
  {
    var changed := ChangedFields(row, q, meaning);
    assert |"value_json"| == 10 && |"text"| == 4 && |"confidence"| == 10 && |"expires_at"| == 10;
    assert "value_json"[0] == 'v' && "confidence"[0] == 'c' && "expires_at"[0] == 'e';
    forall field ensures field in changed <==> FieldChanges(row, q, meaning, field) {
    }
    if changed != [] {
      assert changed[0] in changed;
    }
  }

  ghost predicate RefusesUpdate(rows: Rows, userId: Id, id: nat, q: UpdateRequest, e: ControlError) {
    if id >= |rows| || rows[id].userId != userId then e.NotFound?
    else if e.ConfidenceOutOfRange? then
      && !(-9.99995 < q.confidence < 9.99995)
      && exists meaning | Accepts(rows[id].memoryType, rows[id].key, q.value, q.text, meaning) ::
           Changes(rows[id], q, meaning)
    else Refuses(rows[id].memoryType, rows[id].key, q.value, q.text, e)
  }

  lemma {:induction false} UpdateRefusedExactly(
      rows: Rows, userId: Id, id: nat, q: UpdateRequest, mapper: Mapper, e: ControlError)
    ensures Update(rows, userId, id, q, mapper).1 == Err(e) <==> RefusesUpdate(rows, userId, id, q, e)
    ensures Update(rows, userId, id, q, mapper).1.Err? ==> Update(rows, userId, id, q, mapper).0 == rows
  {
    if OwnedBy(rows, userId, id) {
      PayloadExactly(rows[id].memoryType, rows[id].key, q.value, q.text);
      var payload := ValidPayload(rows[id].memoryType, rows[id].key, q.value, q.text);
      if payload.Ok? {
        ChangedExactly(rows[id], q, payload.value);
      }
      RoundedExactly(q.confidence);
    }
  }

  ghost predicate TellsUpdate(e: Event, row: Row, q: UpdateRequest, meaning: string) {
    && e.action == UpdateEvent && e.from == Some(row.status) && e.to == row.status && e.reason == q.reason
    && (forall field :: field in e.changed <==> FieldChanges(row, q, meaning, field)) && InFieldOrder(e.changed)
  }

  /** One event and one account more, or none where the mapper does not see the change. */
  ghost predicate TracesUpdate(before: Row, after: Row, q: UpdateRequest, meaning: string, mapper: Mapper) {
    if mapper.ChangedDocuments? && before.governance.Some? then after.governance == before.governance
    else
      && after.governance.Some?
      && var had, has := if before.governance.Some? then before.governance.value else Governance([], []),
           after.governance.value;
      && |has.control| == |had.control| + 1 && has.control[..|had.control|] == had.control
      && TellsUpdate(has.control[|had.control|], before, q, meaning)
      && |has.minimization| == |had.minimization| + 1 && has.minimization[..|had.minimization|] == had.minimization
      && TellsDropped(has.minimization[|had.minimization|], UpdateEvent, q.reason, meaning, q.value, q.text)
  }

  ghost predicate IsUpdated(before: Row, after: Row, q: UpdateRequest, meaning: string, mapper: Mapper) {
    && after.userId == before.userId && after.memoryType == before.memoryType && after.key == before.key
    && after.status == before.status && after.sourceRun == before.sourceRun
    && HoldsPreference(after.value, meaning) && after.text.None?
    && RoundsTo(q.confidence, after.confidence) && SameTime(q.expiresAt, after.expiresAt)
    && TracesUpdate(before, after, q, meaning, mapper)
  }

  lemma {:induction false} RowUpdatedExactly(row: Row, q: UpdateRequest, meaning: string, mapper: Mapper)
    ensures IsUpdated(row, Written(mapper, row, UpdatedRow(row, q, meaning)), q, meaning, mapper)
  {
    RoundedExactly(q.confidence);
    ChangedExactly(row, q, meaning);
    DroppedExactly(UpdateEvent, q.reason, meaning, q.value, q.text);
  }

  /** An accepted update is applied exactly when a field changes, and then to that memory alone. */
  lemma {:induction false} UpdatedExactly(
      rows: Rows, userId: Id, id: nat, q: UpdateRequest, mapper: Mapper, meaning: string)
    requires Update(rows, userId, id, q, mapper).1.Ok?
    requires id < |rows| && Accepts(rows[id].memoryType, rows[id].key, q.value, q.text, meaning)
    ensures var (after, result) := Update(rows, userId, id, q, mapper);
            && result.value.id == id && (result.value.applied <==> Changes(rows[id], q, meaning))
            && (!result.value.applied ==> after == rows)
            && (result.value.applied ==>
                  && |after| == |rows| && (forall i | 0 <= i < |rows| && i != id :: after[i] == rows[i])
                  && IsUpdated(rows[id], after[id], q, meaning, mapper))
  {
    PayloadExactly(rows[id].memoryType, rows[id].key, q.value, q.text);
    ChangedExactly(rows[id], q, meaning);
    RowUpdatedExactly(rows[id], q, meaning, mapper);
  }

  // ---- the service ---------------------------------------------------------------------------------

  class MemoryItemRepository {
    const mapper: Mapper
    var rows: Rows

    constructor (mapper: Mapper)
      ensures this.mapper == mapper && rows == []
    {
      this.mapper := mapper;
      rows := [];
    }

    method Insert(row: Row) returns (id: nat)
      modifies this
      ensures rows == old(rows) + [row] && id == |old(rows)|
    {
      id := |rows|;
      rows := rows + [row];
    }

    method Replace(id: nat, row: Row)
      requires id < |rows|
      modifies this
      ensures rows == old(rows)[id := Written(mapper, old(rows)[id], row)]
    {
      rows := rows[id := Written(mapper, rows[id], row)];
    }
  }

  class MemoryUserControlService {
    const repository: MemoryItemRepository

    constructor (repository: MemoryItemRepository)
      ensures this.repository == repository
    {
      this.repository := repository;
    }

    method CreateItem(userId: Id, q: CreateRequest) returns (result: Result<Mutation, ControlError>)
      modifies repository
      ensures (repository.rows, result) == Create(old(repository.rows), userId, q)
    {
      var normalized := ValidPayload(q.memoryType, q.key, q.value, q.text);
      if normalized.Err? {
        return Err(normalized.error);
      }
      var existing := FindRow(repository.rows, userId, q.memoryType, q.key);
      if existing.Some? {
        return Err(AlreadyExists);
      }
      var status := NormalizeStatus(q.status);
      if status.None? {
        return Err(UnsupportedStatus);
      }
      var metadata := Rebuilt(None);
      metadata := WithEvent(metadata, Event(CreateEvent, None, status.value, q.reason, CREATE_CHANGED_FIELDS));
      metadata := WithMinimization(metadata, MinimizationFor(CreateEvent, q.reason, normalized.value, q.value, q.text));
      if !FitsColumn(q.confidence) {
        return Err(ConfidenceOutOfRange);
      }
      var id := repository.Insert(Row(userId, q.memoryType, q.key, Canonical(normalized.value), None,
                                      Rounded(q.confidence),
                                      StoredTime(q.expiresAt), status.value, q.sourceRun, Some(metadata)));
      result := Ok(Mutation(id, true));
    }

    method UpdateItem(userId: Id, id: nat, q: UpdateRequest) returns (result: Result<Mutation, ControlError>)
      modifies repository
      ensures (repository.rows, result) == Update(old(repository.rows), userId, id, q, repository.mapper)
    {
      if !OwnedBy(repository.rows, userId, id) {
        return Err(NotFound);
      }
      var row := repository.rows[id];
      var normalized := ValidPayload(row.memoryType, row.key, q.value, q.text);
      if normalized.Err? {
        return Err(normalized.error);
      }
      var canonical := Canonical(normalized.value);
      var changed: seq<string> := [];
      if row.value != canonical {
        changed := changed + ["value_json"];
      }
      if row.text.Some? {
        changed := changed + ["text"];
      }
      if row.confidence != q.confidence {
        changed := changed + ["confidence"];
      }
      if row.expiresAt != q.expiresAt {
        changed := changed + ["expires_at"];
      }
      assert changed == ChangedFields(row, q, normalized.value);
      if changed == [] {
        return Ok(Mutation(id, false));
      }
      var metadata := Rebuilt(row.governance);
      metadata := WithEvent(metadata, Event(UpdateEvent, Some(row.status), row.status, q.reason, changed));
      metadata := WithMinimization(metadata, MinimizationFor(UpdateEvent, q.reason, normalized.value, q.value, q.text));
      if !FitsColumn(q.confidence) {
        return Err(ConfidenceOutOfRange);
      }
      repository.Replace(id, row.(value := canonical, text := None, confidence := Rounded(q.confidence),
                                  expiresAt := StoredTime(q.expiresAt), governance := Some(metadata)));
      result := Ok(Mutation(id, true));
    }

    method ApplyAction(userId: Id, id: nat, action: ControlAction, reason: Option<string>)
      returns (result: Result<Mutation, ControlError>)
      modifies repository
      ensures (repository.rows, result)
              == Control(old(repository.rows), userId, id, action, reason, repository.mapper)
    {
      if !OwnedBy(repository.rows, userId, id) {
        return Err(NotFound);
      }
      var row := repository.rows[id];
      var target := TargetStatus(action);
      if row.status == target {
        return Ok(Mutation(id, false));
      }
      var metadata := Rebuilt(row.governance);
      metadata := WithEvent(metadata, Event(ControlEvent(action), Some(row.status), target, reason, ["status"]));
      repository.Replace(id, row.(status := target, governance := Some(metadata)));
      result := Ok(Mutation(id, true));
    }

    method DeleteItem(userId: Id, id: nat, reason: Option<string>) returns (result: Result<Mutation, ControlError>)
      modifies repository
      ensures (repository.rows, result)
              == Control(old(repository.rows), userId, id, Suppress, reason, repository.mapper)
    {
      result := ApplyAction(userId, id, Suppress, reason);
    }
  }
}
