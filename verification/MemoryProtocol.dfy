/**
 * Two writers and one reader of one memory table: users who create, update and control memories, feedback that writes
 * candidates, and the planner that loads what governs an intent. Any interleaving is allowed.
 */
module MemoryProtocol {
  import opened Wrappers
  import opened JsonTrees
  import opened Plans
  import opened MemoryAudit
  import opened MemoryControl
  import opened MemoryFeedback
  import P = MemoryPolicy
  import L = MemoryPolicyLaws

  datatype Op =
    | UserCreate(userId: Id, create: CreateRequest)
    | UserUpdate(userId: Id, id: nat, update: UpdateRequest)
    | UserControl(userId: Id, id: nat, action: ControlAction, reason: Option<string>)
    | FeedbackWrite(
        owner: Option<Id>, runId: Id, activityTags: Option<set<string>>, diningTags: Option<set<string>>,
        troubles: Troubles)

  function Step(rows: Rows, op: Op, mapper: Mapper): Rows {
    match op
    case UserCreate(userId, q) => Create(rows, userId, q).0
    case UserUpdate(userId, id, q) => Update(rows, userId, id, q, mapper).0
    case UserControl(userId, id, action, reason) => Control(rows, userId, id, action, reason, mapper).0
    case FeedbackWrite(owner, runId, activityTags, diningTags, troubles) =>
      PersistCandidates(rows, owner, runId, ExtractCandidates(activityTags, diningTags), troubles).0
  }

  function Run(rows: Rows, ops: seq<Op>, mapper: Mapper): Rows {
    if ops == [] then rows else Step(Run(rows, ops[..|ops| - 1], mapper), ops[|ops| - 1], mapper)
  }

  // ---- what the planner loads --------------------------------------------------------------------

  predicate IsGovernable(row: Row, userId: Id) {
    row.userId == userId && (row.status.Active? || row.status.Expired?)
  }

  function LoadedMemory(row: Row, id: nat, now: int): P.Memory {
    P.Memory(id, row.memoryType, row.key, row.value, row.text, Some(row.confidence),
             ResolveLifecycle(row.status, row.expiresAt, now))
  }

  /** `load_memory`: the governable rows of the user in creation order. */
  function Load(rows: Rows, userId: Id, now: int): seq<P.Memory> {
    if rows == [] then []
    else
      var last := |rows| - 1;
      Load(rows[..last], userId, now) + if IsGovernable(rows[last], userId) then [LoadedMemory(rows[last], last, now)]
        else []
  }

  /** The row as the planner reads it: with its lifecycle at that time. */
  ghost predicate ReadsAs(row: Row, id: nat, now: int, m: P.Memory) {
    && m.id == id && m.memoryType == row.memoryType && m.key == row.key && m.value == row.value && m.text == row.text
    && m.confidence == Some(row.confidence)
    && var reached := row.expiresAt.Some? && row.expiresAt.value.at <= now;
    && (m.lifecycle.Active? <==> row.status.Active? && !reached)
    && (m.lifecycle.Expired? <==> row.status.Expired? || (row.status.Active? && reached))
  }

  ghost predicate IsLoaded(rows: Rows, userId: Id, now: int, m: P.Memory) {
    && m.id < |rows| && rows[m.id].userId == userId && (rows[m.id].status.Active? || rows[m.id].status.Expired?)
    && ReadsAs(rows[m.id], m.id, now, m)
  }

  ghost predicate Ascending(memories: seq<P.Memory>) {
    forall i, j | 0 <= i < j < |memories| :: memories[i].id < memories[j].id
  }

  /** The planner loads exactly the user's active and expired memories, in the order of their creation. */
  lemma {:induction false} LoadedExactly(rows: Rows, userId: Id, now: int)
    ensures Ascending(Load(rows, userId, now))
    ensures forall m :: m in Load(rows, userId, now) <==> IsLoaded(rows, userId, now, m)
  {
    if rows != [] {
      var last := |rows| - 1;
      LoadedExactly(rows[..last], userId, now);
      LifecycleExactly(rows[last].status, rows[last].expiresAt, now);
      var before := Load(rows[..last], userId, now);
      forall i | 0 <= i < |before| ensures before[i].id < last {
        assert before[i] in before;
      }
      forall m ensures m in Load(rows, userId, now) <==> IsLoaded(rows, userId, now, m) {
        assert m.id < last ==> (IsLoaded(rows[..last], userId, now, m) <==> IsLoaded(rows, userId, now, m));
        assert m in Load(rows[..last], userId, now) ==> m.id < last;
        assert IsGovernable(rows[last], userId) ==> IsLoaded(rows, userId, now, LoadedMemory(rows[last], last, now));
      }
    }
  }

  /** Rows that agree wherever one of them is governable load alike. */
  lemma {:induction false} LoadDependsOnGovernable(a: Rows, b: Rows, userId: Id, now: int)
    requires |a| <= |b|
    requires forall i | 0 <= i < |a| :: a[i] == b[i] || (!IsGovernable(a[i], userId) && !IsGovernable(b[i], userId))
    requires forall i | |a| <= i < |b| :: !IsGovernable(b[i], userId)
    ensures Load(a, userId, now) == Load(b, userId, now)
    decreases |b|
  {
    if |a| < |b| {
      LoadDependsOnGovernable(a, b[..|b| - 1], userId, now);
    } else if b != [] {
      LoadDependsOnGovernable(a[..|a| - 1], b[..|b| - 1], userId, now);
    }
  }

  /**
   * Noninterference: whatever the table holds, a feedback write leaves the whole outcome of the policy as it was, for
   * every user, intent, signals and time.
   */
  lemma {:induction false} FeedbackDoesNotInfluencePlanning(
      rows: Rows, op: Op, mapper: Mapper, userId: Id, now: int, intent: P.Preferences, signals: P.Signals)
    requires op.FeedbackWrite?
    ensures Load(Step(rows, op, mapper), userId, now) == Load(rows, userId, now)
    ensures P.PolicyFor(intent, signals, Load(Step(rows, op, mapper), userId, now))
            == P.PolicyFor(intent, signals, Load(rows, userId, now))
  {
    var candidates := ExtractCandidates(op.activityTags, op.diningTags);
    if op.owner.Some? {
      OnlyCandidatesAreTouched(rows, op.owner.value, op.runId, candidates, op.troubles);
      LoadDependsOnGovernable(rows, WriteAll(rows, op.owner.value, op.runId, candidates, op.troubles).rows, userId,
                              now);
    }
  }

  // ---- events tell the status ----------------------------------------------------------------------

  /** The status after the events, when each one starts where the one before it ended; None when they do not link. */
  function Replay(start: Option<Lifecycle>, events: seq<Event>): Option<Option<Lifecycle>> {
    if events == [] then Some(start)
    else
      var last := events[|events| - 1];
      if Replay(start, events[..|events| - 1]) == Some(last.from) then Some(Some(last.to)) else None
  }

  /** Events link up to the status, from nothing or from a candidate; a row without events is a candidate. */
  ghost predicate EventsTellStatus(row: Row) {
    var events := EventsOf(row);
    if events == [] then row.status.Candidate?
    else
      && (events[0].from == None || events[0].from == Some(Candidate))
      && Replay(events[0].from, events) == Some(Some(row.status))
  }

  ghost predicate Canonical(row: Row) {
    && row.memoryType == "preference" && row.key in SUPPORTED_KEYS && row.text.None?
    && row.confidence == Rounded(row.confidence)
    && (row.expiresAt.Some? ==> row.expiresAt.value.zoned)
    && PreferenceField(row.value).Some?
    && var preference := PreferenceField(row.value).value;
    && preference.Str? && NormalizeText(row.key, preference.s) == Some(preference.s)
  }

  ghost predicate Sound(rows: Rows, mapper: Mapper) {
    && UniqueKeys(rows)
    && forall i | 0 <= i < |rows| :: RowSound(rows[i], mapper)
  }

  /** Events tell the status of a row when every assignment of metadata is written. */
  ghost predicate RowSound(row: Row, mapper: Mapper) {
    Canonical(row) && (mapper.EveryAssignment? ==> EventsTellStatus(row))
  }

  lemma {:induction false} CanonicalPreference(normalized: string)
    ensures PreferenceField(MemoryControl.Canonical(normalized)) == Some(Str(normalized))
    ensures PreferenceField(CandidateValue(normalized)) == Some(Str(normalized))
  {
    LookupAt(MemoryControl.Canonical(normalized).fields, "preference", 0);
    LookupAt(CandidateValue(normalized).fields, "preference", 0);
  }

  lemma {:induction false} ValidPayloadIsNormal(memoryType: string, key: string, value: Json, text: Option<string>)
    requires ValidPayload(memoryType, key, value, text).Ok?
    ensures var normalized := ValidPayload(memoryType, key, value, text).value;
            NormalizeText(key, normalized) == Some(normalized)
  {
    var field := PreferenceField(value);
    if field.Some? && field.value.Str? && NormalizeText(key, field.value.s).Some? {
      NormalFormIsFixed(key, field.value.s);
    } else {
      NormalFormIsFixed(key, text.value);
    }
  }

  lemma {:induction false} CreatedIsSound(userId: Id, q: CreateRequest, status: Lifecycle)
    requires ValidPayload(q.memoryType, q.key, q.value, q.text).Ok?
    ensures var row := CreatedRow(userId, q, ValidPayload(q.memoryType, q.key, q.value, q.text).value, status);
            Canonical(row) && EventsTellStatus(row) && |EventsOf(row)| == 1
              && Replay(None, EventsOf(row)) == Some(Some(status))
  {
    var normalized := ValidPayload(q.memoryType, q.key, q.value, q.text).value;
    ValidPayloadIsNormal(q.memoryType, q.key, q.value, q.text);
    CanonicalPreference(normalized);
    RoundedTwice(q.confidence);
    var events := EventsOf(CreatedRow(userId, q, normalized, status));
    assert events[..0] == [];
  }

  lemma {:induction false} EventAdded(row: Row, after: Row, e: Event)
    requires EventsTellStatus(row) && e.from == Some(row.status) && e.to == after.status
    requires EventsOf(after) == EventsOf(row) + [e]
    ensures EventsTellStatus(after)
  {
    var events := EventsOf(after);
    assert events[..|events| - 1] == EventsOf(row);
  }

  lemma {:induction false} UpdatedIsSound(row: Row, q: UpdateRequest, mapper: Mapper)
    requires RowSound(row, mapper)
    requires ValidPayload(row.memoryType, row.key, q.value, q.text).Ok?
    ensures var after := UpdatedRow(row, q, ValidPayload(row.memoryType, row.key, q.value, q.text).value);
            RowSound(Written(mapper, row, after), mapper)
  {
    var normalized := ValidPayload(row.memoryType, row.key, q.value, q.text).value;
    ValidPayloadIsNormal(row.memoryType, row.key, q.value, q.text);
    CanonicalPreference(normalized);
    RoundedTwice(q.confidence);
    if mapper.EveryAssignment? {
      EventAdded(row, UpdatedRow(row, q, normalized),
                 Event(UpdateEvent, Some(row.status), row.status, q.reason, ChangedFields(row, q, normalized)));
    }
  }

  lemma {:induction false} ControlledIsSound(row: Row, action: ControlAction, reason: Option<string>, mapper: Mapper)
    requires RowSound(row, mapper)
    ensures RowSound(Written(mapper, row, ControlledRow(row, action, reason)), mapper)
  {
    if mapper.EveryAssignment? {
      EventAdded(row, ControlledRow(row, action, reason),
                 Event(ControlEvent(action), Some(row.status), TargetStatus(action), reason, ["status"]));
    }
  }

  lemma {:induction false} CandidateIsSound(userId: Id, c: CandidateMemory, runId: Id)
    requires IsNormal(c)
    ensures Canonical(CandidateRow(userId, c, runId)) && EventsTellStatus(CandidateRow(userId, c, runId))
  {
    CanonicalPreference(c.preference);
  }

  lemma {:induction false} AppendedKeepsSound(rows: Rows, row: Row, mapper: Mapper)
    requires Sound(rows, mapper) && RowSound(row, mapper) && forall i | 0 <= i < |rows| :: !SamePlace(rows[i], row)
    ensures Sound(rows + [row], mapper)
  {
    AppendedIsUnique(rows, row);
    var appended := rows + [row];
    forall i | 0 <= i < |appended| ensures RowSound(appended[i], mapper) {
    }
  }

  lemma {:induction false} ReplacedKeepsSound(rows: Rows, id: nat, after: Row, mapper: Mapper)
    requires Sound(rows, mapper) && id < |rows| && RowSound(after, mapper) && SamePlace(after, rows[id])
    ensures Sound(rows[id := after], mapper)
  {
    ReplacedIsUnique(rows, id, after);
    var replaced := rows[id := after];
    forall i | 0 <= i < |replaced| ensures RowSound(replaced[i], mapper) {
    }
  }

  lemma {:induction false} WriteOneKeepsSound(
      w: Writing, userId: Id, runId: Id, c: CandidateMemory, trouble: Trouble, mapper: Mapper)
    requires Sound(w.rows, mapper) && IsNormal(c)
    ensures Sound(WriteOne(w, userId, runId, c, trouble).rows, mapper)
  {
    CandidateIsSound(userId, c, runId);
    OneWrite(w, userId, runId, c, trouble);
    var row, after := CandidateRow(userId, c, runId), WriteOne(w, userId, runId, c, trouble).rows;
    if after == w.rows + [row] && forall i | 0 <= i < |w.rows| :: !Hits(w.rows[i], userId, c.key) {
      AppendedKeepsSound(w.rows, row, mapper);
    } else if after != w.rows {
      var i :| 0 <= i < |w.rows| && Hits(w.rows[i], userId, c.key) && after == w.rows[i := row];
      ReplacedKeepsSound(w.rows, i, row, mapper);
    }
  }

  lemma {:induction false} WriteAllKeepsSound(
      rows: Rows, userId: Id, runId: Id, candidates: seq<CandidateMemory>, troubles: Troubles, mapper: Mapper)
    requires Sound(rows, mapper)
    requires forall c | c in candidates :: IsNormal(c)
    ensures Sound(WriteAll(rows, userId, runId, candidates, troubles).rows, mapper)
  {
    if candidates != [] {
      var last := |candidates| - 1;
      WriteAllKeepsSound(rows, userId, runId, candidates[..last], troubles, mapper);
      WriteOneKeepsSound(WriteAll(rows, userId, runId, candidates[..last], troubles), userId, runId,
                         candidates[last], troubles(last), mapper);
    }
  }

  lemma {:induction false} CreateKeepsSound(rows: Rows, userId: Id, q: CreateRequest, mapper: Mapper)
    requires Sound(rows, mapper)
    ensures Sound(Create(rows, userId, q).0, mapper)
  {
    if Create(rows, userId, q).1.Ok? {
      var status := NormalizeStatus(q.status).value;
      CreatedIsSound(userId, q, status);
      AppendedKeepsSound(rows, CreatedRow(userId, q, ValidPayload(q.memoryType, q.key, q.value, q.text).value, status),
                         mapper);
    }
  }

  lemma {:induction false} UpdateKeepsSound(rows: Rows, userId: Id, id: nat, q: UpdateRequest, mapper: Mapper)
    requires Sound(rows, mapper)
    ensures Sound(Update(rows, userId, id, q, mapper).0, mapper)
  {
    if Update(rows, userId, id, q, mapper).0 != rows {
      var normalized := ValidPayload(rows[id].memoryType, rows[id].key, q.value, q.text).value;
      UpdatedIsSound(rows[id], q, mapper);
      ReplacedKeepsSound(rows, id, Written(mapper, rows[id], UpdatedRow(rows[id], q, normalized)), mapper);
    }
  }

  lemma {:induction false} StepKeepsSound(rows: Rows, op: Op, mapper: Mapper)
    requires Sound(rows, mapper)
    ensures Sound(Step(rows, op, mapper), mapper)
  {
    match op
    case UserCreate(userId, q) =>
      CreateKeepsSound(rows, userId, q, mapper);
    case UserUpdate(userId, id, q) =>
      UpdateKeepsSound(rows, userId, id, q, mapper);
    case UserControl(userId, id, action, reason) =>
      if OwnedBy(rows, userId, id) {
        ControlledIsSound(rows[id], action, reason, mapper);
        ReplacedKeepsSound(rows, id, Written(mapper, rows[id], ControlledRow(rows[id], action, reason)), mapper);
      }
    case FeedbackWrite(owner, runId, activityTags, diningTags, troubles) =>
      CandidatesAreNormal(activityTags, diningTags);
      if owner.Some? {
        WriteAllKeepsSound(rows, owner.value, runId, ExtractCandidates(activityTags, diningTags), troubles, mapper);
      }
  }

  /**
   * Over every interleaving of both writers: rows stay canonical, one per user and key, and, when every assignment is
   * written, their events tell their status.
   */
  lemma {:induction false} AlwaysSound(ops: seq<Op>, mapper: Mapper)
    ensures Sound(Run([], ops, mapper), mapper)
  {
    if ops != [] {
      var last := |ops| - 1;
      AlwaysSound(ops[..last], mapper);
      StepKeepsSound(Run([], ops[..last], mapper), ops[last], mapper);
    }
  }

  // ---- consequences for the planner ------------------------------------------------------------------

  lemma {:induction false} CanonicalNeverConflicts(row: Row, lifecycle: Lifecycle)
    requires Canonical(row)
    ensures Classify(row.memoryType, row.key, row.value, row.text, Some(row.confidence), lifecycle).Ok?
    ensures Classify(row.memoryType, row.key, row.value, row.text, Some(row.confidence), lifecycle).value.normalized
            == Some(PreferenceField(row.value).value.s)
  {
  }

  lemma {:induction false} LoadedFromRows(rows: Rows, userId: Id, now: int, k: nat)
    requires k < |Load(rows, userId, now)|
    ensures var m := Load(rows, userId, now)[k];
            m.id < |rows| && IsGovernable(rows[m.id], userId) && m == LoadedMemory(rows[m.id], m.id, now)
  {
    var last := |rows| - 1;
    if k < |Load(rows[..last], userId, now)| {
      LoadedFromRows(rows[..last], userId, now, k);
    }
  }

  ghost predicate HasStatus(ops: seq<Op>, mapper: Mapper, i: nat, status: Lifecycle) {
    i < |Run([], ops, mapper)| && Run([], ops, mapper)[i].status == status
  }

  ghost function WithStatus(mapper: Mapper, i: nat, status: Lifecycle): seq<Op> -> bool {
    (ops: seq<Op>) => HasStatus(ops, mapper, i, status)
  }

  /** True of the history since call j, and not before it. */
  ghost predicate Since(ops: seq<Op>, j: nat, holds: seq<Op> -> bool)
    requires j < |ops|
  {
    !holds(ops[..j]) && forall k | j < k <= |ops| :: holds(ops[..k])
  }

  lemma {:induction false} StillSince(ops: seq<Op>, j: nat, holds: seq<Op> -> bool)
    requires j + 1 < |ops| && Since(ops[..|ops| - 1], j, holds) && holds(ops)
    ensures Since(ops, j, holds)
  {
    var last := |ops| - 1;
    assert ops[..last][..j] == ops[..j] && ops[..|ops|] == ops;
    forall k | j < k <= |ops| ensures holds(ops[..k]) {
      if k <= last {
        assert ops[..last][..k] == ops[..k];
      }
    }
  }

  /**
   * Call j is a call of the owner of row i that created it with, or set it to, the status it has had ever since: no
   * update and no feedback write.
   */
  ghost predicate ApprovedAt(ops: seq<Op>, mapper: Mapper, i: nat, j: nat)
    requires i < |Run([], ops, mapper)|
  {
    var row := Run([], ops, mapper)[i];
    && j < |ops| && (ops[j].UserCreate? || ops[j].UserControl?) && ops[j].userId == row.userId
    && Since(ops, j, WithStatus(mapper, i, row.status))
  }

  /** What one call does to a row that is active or expired afterwards, when it changes its status or creates it. */
  lemma {:induction false} StatusSetByOwner(rows: Rows, op: Op, mapper: Mapper, i: nat)
    requires i < |Step(rows, op, mapper)|
    ensures i < |rows| ==> Step(rows, op, mapper)[i].userId == rows[i].userId
    ensures var after := Step(rows, op, mapper)[i];
            (after.status.Active? || after.status.Expired?) && (i < |rows| ==> rows[i].status != after.status) ==>
              (op.UserCreate? || op.UserControl?) && op.userId == after.userId
  {
    if op.FeedbackWrite? && op.owner.Some? {
      OnlyCandidatesAreTouched(rows, op.owner.value, op.runId, ExtractCandidates(op.activityTags, op.diningTags),
                               op.troubles);
    }
  }

  /** Some call of its owner gave an active or expired row its status. */
  lemma {:induction false} Approval(ops: seq<Op>, mapper: Mapper, i: nat) returns (j: nat)
    requires i < |Run([], ops, mapper)|
    requires var status := Run([], ops, mapper)[i].status; status.Active? || status.Expired?
    ensures ApprovedAt(ops, mapper, i, j)
  {
    var last := |ops| - 1;
    StatusSetByOwner(Run([], ops[..last], mapper), ops[last], mapper, i);
    assert ops[..last + 1] == ops;
    if HasStatus(ops[..last], mapper, i, Run([], ops, mapper)[i].status) {
      j := Approval(ops[..last], mapper, i);
      StillSince(ops, j, WithStatus(mapper, i, Run([], ops, mapper)[i].status));
    } else {
      j := last;
    }
  }

  /** The last event of a row says what its status is. */
  ghost predicate LastEventTells(row: Row) {
    EventsOf(row) != [] && EventsOf(row)[|EventsOf(row)| - 1].to == row.status
  }

  ghost predicate Approved(ops: seq<Op>, mapper: Mapper, i: nat)
    requires i < |Run([], ops, mapper)|
  {
    && (exists j :: ApprovedAt(ops, mapper, i, j))
    && (mapper.EveryAssignment? ==> LastEventTells(Run([], ops, mapper)[i]))
  }

  lemma {:induction false} GovernableIsApproved(ops: seq<Op>, mapper: Mapper, i: nat, userId: Id)
    requires i < |Run([], ops, mapper)| && IsGovernable(Run([], ops, mapper)[i], userId)
    ensures Approved(ops, mapper, i)
  {
    var j := Approval(ops, mapper, i);
    AlwaysSound(ops, mapper);
    assert RowSound(Run([], ops, mapper)[i], mapper);
  }

  /**
   * Whatever the planner loads, after any history, its owner created active or expired, or made so; where every
   * assignment is written, the last of its events says so. Feedback alone never makes a memory count, and the policy
   * never raises on what is loaded.
   */
  lemma {:induction false} PlanningUsesWhatUsersApproved(
      ops: seq<Op>, mapper: Mapper, userId: Id, now: int, intent: P.Preferences, signals: P.Signals)
    ensures var rows := Run([], ops, mapper);
            && P.PolicyFor(intent, signals, Load(rows, userId, now)).Ok?
            && forall m | m in Load(rows, userId, now) ::
                 m.id < |rows| && IsGovernable(rows[m.id], userId) && Approved(ops, mapper, m.id)
  {
    AlwaysSound(ops, mapper);
    var rows := Run([], ops, mapper);
    var memories := Load(rows, userId, now);
    forall k | 0 <= k < |memories|
      ensures !L.Raises(memories[k], signals)
      ensures memories[k].id < |rows| && IsGovernable(rows[memories[k].id], userId)
    {
      LoadedFromRows(rows, userId, now, k);
      CanonicalNeverConflicts(rows[memories[k].id], memories[k].lifecycle);
    }
    forall m | m in memories
      ensures m.id < |rows| && IsGovernable(rows[m.id], userId) && Approved(ops, mapper, m.id)
    {
      var k :| 0 <= k < |memories| && memories[k] == m;
      GovernableIsApproved(ops, mapper, m.id, userId);
    }
    L.RaisesExactly(intent, memories, signals);
  }

  // ---- what an action of the owner comes to -------------------------------------------------------------

  ghost predicate IsGiven(rows: Rows, userId: Id, now: int, id: nat) {
    exists m :: m in Load(rows, userId, now) && m.id == id
  }

  /** A call by which the owner activates or expires the item. */
  ghost predicate Approves(op: Op, owner: Id, id: nat) {
    op.UserControl? && op.userId == owner && op.id == id && (op.action.Activate? || op.action.Expire?)
  }

  lemma {:induction false} GivenExactly(rows: Rows, userId: Id, now: int, id: nat)
    ensures IsGiven(rows, userId, now, id) <==> id < |rows| && IsGovernable(rows[id], userId)
  {
    LoadedExactly(rows, userId, now);
    if id < |rows| && IsGovernable(rows[id], userId) {
      LifecycleExactly(rows[id].status, rows[id].expiresAt, now);
      assert IsLoaded(rows, userId, now, LoadedMemory(rows[id], id, now));
    }
  }

  /** A call that approves nothing leaves what is not governable so; no row changes its owner. */
  lemma {:induction false} StaysUngoverned(rows: Rows, op: Op, mapper: Mapper, id: nat)
    requires id < |rows|
    ensures id < |Step(rows, op, mapper)| && Step(rows, op, mapper)[id].userId == rows[id].userId
    ensures !IsGovernable(rows[id], rows[id].userId) && !Approves(op, rows[id].userId, id) ==>
              !IsGovernable(Step(rows, op, mapper)[id], rows[id].userId)
  {
    match op
    case UserControl(userId, i, action, reason) =>
      ControlledExactly(rows, userId, i, action, reason, mapper);
    case FeedbackWrite(owner, runId, activityTags, diningTags, troubles) =>
      if owner.Some? {
        OnlyCandidatesAreTouched(rows, owner.value, runId, ExtractCandidates(activityTags, diningTags), troubles);
      }
    case _ =>
  }

  lemma {:induction false} NotGivenUntilApproved(rows: Rows, ops: seq<Op>, mapper: Mapper, now: int, id: nat)
    requires id < |rows| && !IsGovernable(rows[id], rows[id].userId)
    requires forall op | op in ops :: !Approves(op, rows[id].userId, id)
    ensures id < |Run(rows, ops, mapper)| && Run(rows, ops, mapper)[id].userId == rows[id].userId
    ensures !IsGovernable(Run(rows, ops, mapper)[id], rows[id].userId)
    ensures !IsGiven(Run(rows, ops, mapper), rows[id].userId, now, id)
  {
    if ops != [] {
      var last := |ops| - 1;
      NotGivenUntilApproved(rows, ops[..last], mapper, now, id);
      StaysUngoverned(Run(rows, ops[..last], mapper), ops[last], mapper, id);
    }
    GivenExactly(Run(rows, ops, mapper), rows[id].userId, now, id);
  }

  /**
   * What the owner's action means to the planner: after activating or expiring an item it is given it; after
   * disabling, suppressing or marking it a candidate it is not, whatever anybody does next, until the owner activates
   * or expires it.
   */
  lemma {:induction false} ActionsDecideWhatIsGiven(
      rows: Rows, userId: Id, id: nat, action: ControlAction, reason: Option<string>, ops: seq<Op>, mapper: Mapper,
      now: int)
    requires id < |rows| && rows[id].userId == userId
    ensures var after := Step(rows, UserControl(userId, id, action, reason), mapper);
            && (action.Activate? || action.Expire? ==> IsGiven(after, userId, now, id))
            && (!action.Activate? && !action.Expire? ==>
                  && !IsGiven(after, userId, now, id)
                  && ((forall op | op in ops :: !Approves(op, userId, id)) ==>
                      !IsGiven(Run(after, ops, mapper), userId, now, id)))
  {
    var after := Step(rows, UserControl(userId, id, action, reason), mapper);
    ControlledExactly(rows, userId, id, action, reason, mapper);
    GivenExactly(after, userId, now, id);
    if !action.Activate? && !action.Expire? && forall op | op in ops :: !Approves(op, userId, id) {
      NotGivenUntilApproved(after, ops, mapper, now, id);
    }
  }

  // ---- repeating an update -----------------------------------------------------------------------------

  /** A confidence the column holds exactly, and a time with a zone. */
  predicate Exact(q: UpdateRequest) {
    Rounded(q.confidence) == q.confidence && (q.expiresAt.Some? ==> q.expiresAt.value.zoned)
  }

  /**
   * Repeating an accepted update is a no-op, adding no event, exactly when its confidence and time survive being
   * stored.
   */
  lemma {:induction false} RepeatedUpdateIsNoOpExactly(
      rows: Rows, userId: Id, id: nat, q: UpdateRequest, mapper: Mapper)
    requires Sound(rows, mapper) && Update(rows, userId, id, q, mapper).1.Ok?
    ensures var after := Update(rows, userId, id, q, mapper).0;
            Update(after, userId, id, q, mapper) == (after, Ok(Mutation(id, false))) <==> Exact(q)
  {
    var normalized := ValidPayload(rows[id].memoryType, rows[id].key, q.value, q.text).value;
    var after := Update(rows, userId, id, q, mapper).0;
    if after != rows {
      assert after[id] == Written(mapper, rows[id], UpdatedRow(rows[id], q, normalized));
    }
  }

  // ---- the history of one item -------------------------------------------------------------------------

  /** The call was applied to the item. */
  ghost predicate AppliedTo(rows: Rows, op: Op, mapper: Mapper, i: nat) {
    match op
    case UserCreate(_, _) => false
    case UserUpdate(userId, id, q) => Update(rows, userId, id, q, mapper).1 == Ok(Mutation(i, true))
    case UserControl(userId, id, action, reason) =>
      Control(rows, userId, id, action, reason, mapper).1 == Ok(Mutation(i, true))
    case FeedbackWrite(_, _, _, _, _) => false
  }

  ghost function AppliedCount(rows: Rows, ops: seq<Op>, mapper: Mapper, i: nat): nat {
    if ops == [] then 0
    else
      var last := |ops| - 1;
      AppliedCount(rows, ops[..last], mapper, i)
      + if AppliedTo(Run(rows, ops[..last], mapper), ops[last], mapper, i) then 1 else 0
  }

  ghost predicate UserOpsOnly(ops: seq<Op>) {
    forall op | op in ops :: !op.FeedbackWrite?
  }

  /** An event of an applied call is stored: unless the mapper compares, and the row has a list of events already. */
  ghost predicate StoresEvents(row: Row, mapper: Mapper) {
    mapper.EveryAssignment? || row.governance.None?
  }

  /** One event more, from the status before to the status after, where events are stored; otherwise the same events. */
  ghost predicate Recorded(before: Row, after: Row, mapper: Mapper) {
    && after.governance.Some?
    && if StoresEvents(before, mapper)
       then exists e ::
              EventsOf(after) == EventsOf(before) + [e] && e.from == Some(before.status) && e.to == after.status
       else EventsOf(after) == EventsOf(before)
  }

  lemma {:induction false} UpdateIsRecorded(before: Row, q: UpdateRequest, normalized: string, mapper: Mapper)
    ensures Recorded(before, Written(mapper, before, UpdatedRow(before, q, normalized)), mapper)
  {
    var e := Event(UpdateEvent, Some(before.status), before.status, q.reason, ChangedFields(before, q, normalized));
    EventIsStored(before, UpdatedRow(before, q, normalized), mapper, e);
  }

  lemma {:induction false} ControlIsRecorded(
      before: Row, action: ControlAction, reason: Option<string>, mapper: Mapper)
    ensures Recorded(before, Written(mapper, before, ControlledRow(before, action, reason)), mapper)
  {
    var e := Event(ControlEvent(action), Some(before.status), TargetStatus(action), reason, ["status"]);
    EventIsStored(before, ControlledRow(before, action, reason), mapper, e);
  }

  lemma {:induction false} EventIsStored(before: Row, row: Row, mapper: Mapper, e: Event)
    requires row.governance.Some? && EventsOf(row) == EventsOf(before) + [e]
    requires e.from == Some(before.status) && e.to == row.status
    ensures Recorded(before, Written(mapper, before, row), mapper)
  {
    if StoresEvents(before, mapper) {
      assert EventsOf(Written(mapper, before, row)) == EventsOf(before) + [e];
    }
  }

  /**
   * One user call adds one event to the item, linked to its status, exactly when the call was applied to it and its
   * events are stored; a call that is not applied to it leaves it as it was.
   */
  lemma {:induction false} UserStepAddsEvent(rows: Rows, op: Op, mapper: Mapper, i: nat)
    requires i < |rows| && !op.FeedbackWrite?
    ensures i < |Step(rows, op, mapper)|
    ensures var before, after := rows[i], Step(rows, op, mapper)[i];
            && (AppliedTo(rows, op, mapper, i) ==> Recorded(before, after, mapper))
            && (!AppliedTo(rows, op, mapper, i) ==> after == before)
  {
    match op
    case UserCreate(_, _) =>
    case UserUpdate(userId, id, q) =>
      if AppliedTo(rows, op, mapper, i) {
        UpdateIsRecorded(rows[i], q, ValidPayload(rows[id].memoryType, rows[id].key, q.value, q.text).value, mapper);
      }
    case UserControl(userId, id, action, reason) =>
      if AppliedTo(rows, op, mapper, i) {
        ControlIsRecorded(rows[i], action, reason, mapper);
      }
  }

  /**
   * The events of an item that a user created, under any calls of any users, are append-only. When every assignment is
   * written there is one per applied call; when documents are compared, that of the creation stays the only one. So
   * replaying them from nothing gives the status exactly when every assignment is written, or the status is the one the
   * item was created with.
   */
  lemma {:induction false} EventsReplay(rows: Rows, userId: Id, q: CreateRequest, ops: seq<Op>, mapper: Mapper)
    requires Create(rows, userId, q).1.Ok? && UserOpsOnly(ops)
    ensures var created := Create(rows, userId, q).0;
            var i := |rows|;
            && i < |Run(created, ops, mapper)|
            && var row := Run(created, ops, mapper)[i];
            && EventsOf(created[i]) <= EventsOf(row)
            && |EventsOf(row)| == 1 + (if mapper.EveryAssignment? then AppliedCount(created, ops, mapper, i) else 0)
            && (Replay(None, EventsOf(row)) == Some(Some(row.status)) <==>
                mapper.EveryAssignment? || row.status == created[i].status)
  {
    var created, i := Create(rows, userId, q).0, |rows|;
    HistoryGrows(created, ops, mapper, i);
    CreatedIsSound(userId, q, NormalizeStatus(q.status).value);
    var events := EventsOf(Run(created, ops, mapper)[i]);
    if mapper.ChangedDocuments? {
      assert events == EventsOf(created[i]);
    } else {
      EventsLink(created, ops, i);
    }
  }

  lemma {:induction false} HistoryGrows(created: Rows, ops: seq<Op>, mapper: Mapper, i: nat)
    requires UserOpsOnly(ops) && i < |created| && created[i].governance.Some?
    ensures i < |Run(created, ops, mapper)|
    ensures var row := Run(created, ops, mapper)[i];
            && row.governance.Some? && EventsOf(created[i]) <= EventsOf(row)
            && |EventsOf(row)| == |EventsOf(created[i])|
                                  + (if mapper.EveryAssignment? then AppliedCount(created, ops, mapper, i) else 0)
  {
    if ops != [] {
      var last := |ops| - 1;
      HistoryGrows(created, ops[..last], mapper, i);
      UserStepAddsEvent(Run(created, ops[..last], mapper), ops[last], mapper, i);
    }
  }

  lemma {:induction false} EventsLink(created: Rows, ops: seq<Op>, i: nat)
    requires UserOpsOnly(ops) && i < |created| && Replay(None, EventsOf(created[i])) == Some(Some(created[i].status))
    ensures i < |Run(created, ops, EveryAssignment)|
    ensures var row := Run(created, ops, EveryAssignment)[i];
            Replay(None, EventsOf(row)) == Some(Some(row.status))
  {
    if ops != [] {
      var last := |ops| - 1;
      EventsLink(created, ops[..last], i);
      var before := Run(created, ops[..last], EveryAssignment);
      UserStepAddsEvent(before, ops[last], EveryAssignment, i);
      var events := EventsOf(Run(created, ops, EveryAssignment)[i]);
      if AppliedTo(before, ops[last], EveryAssignment, i) {
        assert events[..|events| - 1] == EventsOf(before[i]);
      }
    }
  }

  // ---- a history that is lost --------------------------------------------------------------------------

  const USER: Id := "00000000-0000-0000-0000-00000000000a"
  const RUN: Id := "00000000-0000-0000-0000-00000000000b"

  function IndoorCandidate(): CreateRequest {
    CreateRequest("preference", "activity_style", MemoryControl.Canonical("indoor"), None, 0.9, "candidate", None, None,
                  None)
  }

  function Untroubled(k: nat): Trouble {
    NoTrouble
  }

  function CitywalkFeedback(): Op {
    FeedbackWrite(Some(USER), RUN, Some({"citywalk"}), None, Untroubled)
  }

  lemma {:induction false} CandidateStatus()
    ensures NormalizeStatus("candidate") == Some(Candidate)
  {
    assert |"candidate"| == 9 && |"active"| == 6 && |"expired"| == 7;
    assert |"disabled"| == 8 && |"ignored"| == 7 && |"archived"| == 8;
  }

  lemma {:induction false} IndoorIsValid()
    ensures ValidPayload("preference", "activity_style", MemoryControl.Canonical("indoor"), None) == Ok("indoor")
  {
    IndoorIsFixed();
    CanonicalPreference("indoor");
  }

  lemma {:induction false} NineTenthsFits()
    ensures Rounded(0.9) == 0.9 && FitsColumn(0.9)
  {
    assert (0.9 * 10000.0 + 0.5).Floor == 9000;
  }

  function Created(): Row {
    CreatedRow(USER, IndoorCandidate(), "indoor", Candidate)
  }

  lemma {:induction false} IndoorIsCreated()
    ensures Create([], USER, IndoorCandidate()) == ([Created()], Ok(Mutation(0, true)))
  {
    IndoorIsValid();
    CandidateStatus();
    NineTenthsFits();
    assert FindRow([], USER, "preference", "activity_style") == None;
    assert [] + [Created()] == [Created()];
  }

  lemma {:induction false} CitywalkIsWritten(created: Row, mapper: Mapper)
    requires created.userId == USER && created.memoryType == "preference" && created.key == "activity_style"
    requires created.status.Candidate?
    ensures Step([created], CitywalkFeedback(), mapper)
            == [CandidateRow(USER, CandidateMemory("activity_style", "citywalk"), RUN)]
  {
    var c := CandidateMemory("activity_style", "citywalk");
    assert ExtractCandidates(Some({"citywalk"}), None) == [c];
    assert [c][..0] == [];
    assert FindRow([created], USER, "preference", "activity_style") == Some(0);
    assert WriteAll([created], USER, RUN, [], Untroubled).rows == [created];
    assert [created][0 := CandidateRow(USER, c, RUN)] == [CandidateRow(USER, c, RUN)];
  }

  /** A user stores a candidate, feedback overwrites it, and the event of the creation is gone. */
  lemma {:induction false} CreationIsForgotten(mapper: Mapper)
    ensures var created := Run([], [UserCreate(USER, IndoorCandidate())], mapper);
            var after := Run([], [UserCreate(USER, IndoorCandidate()), CitywalkFeedback()], mapper);
            && |created| == 1 && |after| == 1 && created[0].status.Candidate? && after[0].status.Candidate?
            && |EventsOf(created[0])| == 1 && EventsOf(after[0]) == []
  {
    var create, write := UserCreate(USER, IndoorCandidate()), CitywalkFeedback();
    assert [create][..0] == [] && [create, write][..1] == [create];
    IndoorIsCreated();
    assert Run([], [create], mapper) == [Created()];
    CitywalkIsWritten(Created(), mapper);
    assert Run([], [create, write], mapper) == Step([Created()], write, mapper);
  }

  // ---- an update that is never a repetition --------------------------------------------------------------

  const MORE_THAN_FOUR_DECIMALS := 0.12345

  function Imprecise(): UpdateRequest {
    UpdateRequest(MemoryControl.Canonical("indoor"), None, MORE_THAN_FOUR_DECIMALS, None, None)
  }

  lemma {:induction false} FourDecimalsAreKept()
    ensures Rounded(MORE_THAN_FOUR_DECIMALS) == 0.1235 && FitsColumn(MORE_THAN_FOUR_DECIMALS)
  {
    assert (MORE_THAN_FOUR_DECIMALS * 10000.0 + 0.5).Floor == 1235;
  }

  /** The update is applied whenever the stored confidence is not the one that was sent. */
  lemma {:induction false} ImpreciseIsApplied(row: Row, mapper: Mapper)
    requires row.userId == USER && row.memoryType == "preference" && row.key == "activity_style"
    requires row.confidence != MORE_THAN_FOUR_DECIMALS
    ensures Step([row], UserUpdate(USER, 0, Imprecise()), mapper)
            == [Written(mapper, row, UpdatedRow(row, Imprecise(), "indoor"))]
    ensures AppliedTo([row], UserUpdate(USER, 0, Imprecise()), mapper, 0)
  {
    IndoorIsValid();
    FourDecimalsAreKept();
    assert ChangedFields(row, Imprecise(), "indoor") != [] by {
      assert "confidence" in ChangedFields(row, Imprecise(), "indoor");
    }
    var after := Written(mapper, row, UpdatedRow(row, Imprecise(), "indoor"));
    assert [row][0 := after] == [after];
  }

  /**
   * The same update sent twice is accepted and applied twice, and leaves two events behind that of the creation where
   * every assignment is written.
   */
  lemma {:induction false} RepeatedUpdateAddsEvent(mapper: Mapper)
    ensures var create, update := UserCreate(USER, IndoorCandidate()), UserUpdate(USER, 0, Imprecise());
            var once, twice := Run([], [create, update], mapper), Run([], [create, update, update], mapper);
            && |once| == 1 && |twice| == 1 && !Exact(Imprecise())
            && AppliedTo(once, update, mapper, 0)
            && (mapper.EveryAssignment? ==> |EventsOf(once[0])| == 2 && |EventsOf(twice[0])| == 3)
  {
    var create, update := UserCreate(USER, IndoorCandidate()), UserUpdate(USER, 0, Imprecise());
    assert [create][..0] == [] && [create, update][..1] == [create];
    assert [create, update, update][..2] == [create, update];
    IndoorIsCreated();
    assert Run([], [create], mapper) == [Created()];
    NineTenthsFits();
    FourDecimalsAreKept();
    ImpreciseIsApplied(Created(), mapper);
    var updated := Written(mapper, Created(), UpdatedRow(Created(), Imprecise(), "indoor"));
    assert Run([], [create, update], mapper) == [updated];
    ImpreciseIsApplied(updated, mapper);
    assert Run([], [create, update, update], mapper)
        == [Written(mapper, updated, UpdatedRow(updated, Imprecise(), "indoor"))];
  }

  /** With compared documents: a user activates a candidate, the planner loads it, and its one event says candidate. */
  lemma {:induction false} ActivationLeavesNoEvent(now: int)
    ensures var create, activate := UserCreate(USER, IndoorCandidate()), UserControl(USER, 0, Activate, None);
            var after := Run([], [create, activate], ChangedDocuments);
            && |after| == 1 && after[0].status.Active? && |Load(after, USER, now)| == 1
            && |EventsOf(after[0])| == 1 && EventsOf(after[0])[0].to == Candidate
  {
    var create, activate := UserCreate(USER, IndoorCandidate()), UserControl(USER, 0, Activate, None);
    assert [create][..0] == [] && [create, activate][..1] == [create];
    IndoorIsCreated();
    assert Run([], [create], ChangedDocuments) == [Created()];
    ActivatedAlone(Created(), now);
    assert Run([], [create, activate], ChangedDocuments) == Step([Created()], activate, ChangedDocuments);
  }

  lemma {:induction false} ActivatedAlone(row: Row, now: int)
    requires row.userId == USER && row.status.Candidate? && row.governance.Some?
    ensures var after := Step([row], UserControl(USER, 0, Activate, None), ChangedDocuments);
            && after == [row.(status := Active)] && |Load(after, USER, now)| == 1
  {
    var active := row.(status := Active);
    assert [row][0 := active] == [active] && [active][..0] == [];
    assert Load([], USER, now) == [];
  }
}
