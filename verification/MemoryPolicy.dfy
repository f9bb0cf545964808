/** How stored memories shape the preferences of an intent, and the audit of every decision. */
module MemoryPolicy {
  import opened Wrappers
  import opened JsonTrees
  import opened MemoryAudit
  import opened Counting
  import opened Sorting

  /** A memory as the workflow loads it, with its lifecycle resolved; an unparsable confidence is None. */
  datatype Memory = Memory(
    id: nat, memoryType: string, key: string, value: Json, text: Option<string>, confidence: Option<real>,
    lifecycle: Lifecycle)

  /** The two preference lists of an intent; the policy leaves the rest of it alone. */
  datatype Preferences = Preferences(activity: seq<string>, dining: seq<string>)

  /** Whether the user's own words gave a preference of the dimension. */
  datatype Signals = Signals(activity: bool, dining: bool)

  datatype Dimension = ActivityPreferences | DiningPreferences

  datatype Outcome = AppliedTrusted | AppliedAdvisory | SuppressedUserOverride | SuppressedWeakSignal | UnsupportedKey
    | UnrecognizedValue

  datatype Decision = Decision(
    key: string, dimension: Dimension, normalized: Option<string>, confidence: Option<real>, tier: Tier, expired: bool,
    outcome: Outcome)

  datatype DecisionStatus = Used | IgnoredDecision | Downgraded | Overridden

  datatype Influence = Primary | AdvisoryInfluence | NoInfluence

  datatype LogEntry = LogEntry(id: nat, decision: Decision, status: DecisionStatus, influence: Influence)

  datatype Winner = UserInput | MemoryWins(key: string, tier: Tier)

  datatype DimensionOutcome = DimensionOutcome(dimension: Dimension, winner: Winner, effective: seq<string>,
      suppressed: seq<string>)

  datatype Summary = Summary(
    considered: nat, used: nat, ignored: nat, downgraded: nat, overridden: nat, primary: nat, advisory: nat, none: nat)

  /** What the loop accumulates. */
  datatype Policy = Policy(
    activity: seq<string>, dining: seq<string>,
    applied: seq<string>, advisory: seq<string>, lowConfidence: seq<string>, expiredKeys: seq<string>,
    overrides: seq<Dimension>, unsupported: seq<string>,
    outcomes: seq<DimensionOutcome>, log: seq<LogEntry>)

  datatype PolicyResult = PolicyResult(effective: Preferences, policy: Policy, summary: Summary)

  function DimensionOf(key: string): Option<Dimension> {
    if key == "activity_style" then Some(ActivityPreferences)
    else if key == "spouse_lighter_meals" then Some(DiningPreferences)
    else None
  }

  predicate UserOverrides(dimension: Dimension, signals: Signals) {
    if dimension.ActivityPreferences? then signals.activity else signals.dining
  }

  function AppendUnique<T(==)>(values: seq<T>, value: T): seq<T> {
    if value in values then values else values + [value]
  }

  function StatusOf(outcome: Outcome): DecisionStatus {
    match outcome
    case AppliedTrusted => Used
    case AppliedAdvisory => Downgraded
    case SuppressedUserOverride => Overridden
    case _ => IgnoredDecision
  }

  function InfluenceOf(outcome: Outcome): Influence {
    match outcome
    case AppliedTrusted => Primary
    case AppliedAdvisory => AdvisoryInfluence
    case _ => NoInfluence
  }

  function Entry(m: Memory, d: Decision): LogEntry {
    LogEntry(m.id, d, StatusOf(d.outcome), InfluenceOf(d.outcome))
  }

  // ---- the decision about one memory, which no other memory influences ---------------------------

  function OutcomeFor(normalized: Option<string>, dimension: Dimension, tier: Tier, signals: Signals): Outcome {
    if normalized.None? then UnrecognizedValue
    else if UserOverrides(dimension, signals) then SuppressedUserOverride
    else
      match tier
      case Weak => SuppressedWeakSignal
      case Trusted => AppliedTrusted
      case Advisory => AppliedAdvisory
  }

  function Decide(m: Memory, signals: Signals): Result<Decision, AuditError> {
    match DimensionOf(m.key)
    case None => Ok(Decision(m.key, ActivityPreferences, None, m.confidence, Weak, false, UnsupportedKey))
    case Some(dimension) =>
      match Classify(m.memoryType, m.key, m.value, m.text, m.confidence, m.lifecycle)
      case Err(e) => Err(e)
      case Ok(audit) =>
        var tier := if audit.tier.Some? then audit.tier.value else Weak;
        Ok(Decision(m.key, dimension, audit.normalized, m.confidence, tier, audit.expired,
                    OutcomeFor(audit.normalized, dimension, tier, signals)))
  }

  predicate Applies(d: Decision) {
    d.outcome.AppliedTrusted? || d.outcome.AppliedAdvisory?
  }

  function CountStatus(log: seq<LogEntry>, status: DecisionStatus): nat {
    CountBy(log, (e: LogEntry) => e.status == status)
  }

  function CountInfluence(log: seq<LogEntry>, influence: Influence): nat {
    CountBy(log, (e: LogEntry) => e.influence == influence)
  }

  function SummaryOf(log: seq<LogEntry>): Summary {
    Summary(|log|, CountStatus(log, Used), CountStatus(log, IgnoredDecision), CountStatus(log, Downgraded),
            CountStatus(log, Overridden),
            CountInfluence(log, Primary), CountInfluence(log, AdvisoryInfluence), CountInfluence(log, NoInfluence))
  }

  // ---- the loop ------------------------------------------------------------------------------------

  function AddIf(keys: seq<string>, condition: bool, key: string): seq<string> {
    if condition then AppendUnique(keys, key) else keys
  }

  function CurrentValues(p: Policy, dimension: Dimension): seq<string> {
    if dimension.ActivityPreferences? then p.activity else p.dining
  }

  /** The accumulator after one decision. */
  function Record(p: Policy, m: Memory, d: Decision): Policy
    requires Applies(d) ==> d.normalized.Some?
  {
    var governed := !d.outcome.UnsupportedKey?;
    var next := p.(
      activity := if Applies(d) && d.dimension.ActivityPreferences? then AppendUnique(p.activity, d.normalized.value)
        else p.activity,
      dining := if Applies(d) && d.dimension.DiningPreferences? then AppendUnique(p.dining, d.normalized.value)
        else p.dining,
      applied := AddIf(p.applied, Applies(d), m.key),
      advisory := AddIf(p.advisory, d.outcome.AppliedAdvisory?, m.key),
      lowConfidence := AddIf(p.lowConfidence, governed && (d.confidence.None? || (!d.expired && !d.tier.Trusted?)),
                             m.key),
      expiredKeys := AddIf(p.expiredKeys, governed && d.expired, m.key),
      unsupported := AddIf(p.unsupported, !governed, m.key),
      overrides := if d.outcome.SuppressedUserOverride? then AppendUnique(p.overrides, d.dimension) else p.overrides,
      log := p.log + [Entry(m, d)]);
    if Applies(d) then
      next.(outcomes := p.outcomes
            + [DimensionOutcome(d.dimension, MemoryWins(m.key, d.tier), CurrentValues(next, d.dimension), [])])
    else if d.outcome.SuppressedUserOverride? then
      next.(outcomes := p.outcomes
            + [DimensionOutcome(d.dimension, UserInput, CurrentValues(next, d.dimension), [m.key])])
    else next
  }

  function Consider(p: Policy, m: Memory, signals: Signals): Result<Policy, AuditError> {
    if m.memoryType != "preference" then Ok(p)
    else
      match Decide(m, signals)
      case Err(e) => Err(e)
      case Ok(d) => Ok(Record(p, m, d))
  }

  function Fold(intent: Preferences, memories: seq<Memory>, signals: Signals): Result<Policy, AuditError> {
    if memories == [] then Ok(Policy(intent.activity, intent.dining, [], [], [], [], [], [], [], []))
    else
      match Fold(intent, memories[..|memories| - 1], signals)
      case Err(e) => Err(e)
      case Ok(p) => Consider(p, memories[|memories| - 1], signals)
  }

  lemma {:induction false} FoldFailsOnPrefix(intent: Preferences, memories: seq<Memory>, signals: Signals, n: nat)
    requires n <= |memories| && Fold(intent, memories[..n], signals).Err?
    ensures Fold(intent, memories, signals) == Fold(intent, memories[..n], signals)
    decreases |memories|
  {
    if n < |memories| {
      var last := |memories| - 1;
      assert memories[..last][..n] == memories[..n];
      FoldFailsOnPrefix(intent, memories[..last], signals, n);
    } else {
      assert memories[..n] == memories;
    }
  }

  function DimensionOrder(o: DimensionOutcome): int {
    if o.dimension.ActivityPreferences? then 0 else 1
  }

  function PolicyFor(intent: Preferences, signals: Signals, memories: seq<Memory>): Result<PolicyResult, AuditError> {
    match Fold(intent, memories, signals)
    case Err(e) => Err(e)
    case Ok(p) =>
      Ok(PolicyResult(Preferences(p.activity, p.dining), p.(outcomes := SortBy(p.outcomes, DimensionOrder)),
                      SummaryOf(p.log)))
  }

  method ApplyMemoryQueryPolicy(intent: Preferences, signals: Signals, memories: seq<Memory>)
    returns (result: Result<PolicyResult, AuditError>)
    ensures result == PolicyFor(intent, signals, memories)
  {
    var p := Policy(intent.activity, intent.dining, [], [], [], [], [], [], [], []);
    for i := 0 to |memories|
      invariant Fold(intent, memories[..i], signals) == Ok(p)
    {
      assert memories[..i + 1][..i] == memories[..i];
      var next := ConsiderMemory(p, memories[i], signals);
      if next.Err? {
        FoldFailsOnPrefix(intent, memories, signals, i + 1);
        return Err(next.error);
      }
      p := next.value;
    }
    assert memories[..|memories|] == memories;
    var summary := BuildPolicySummary(p.log);
    result := Ok(PolicyResult(Preferences(p.activity, p.dining), p.(outcomes := SortBy(p.outcomes, DimensionOrder)),
                              summary));
  }

  /** One iteration of the loop, branch by branch. */
  method ConsiderMemory(before: Policy, m: Memory, signals: Signals) returns (after: Result<Policy, AuditError>)
    ensures after == Consider(before, m, signals)
  {
    var p := before;
    if m.memoryType != "preference" {
      return Ok(p);
    }
    var dimension := DimensionOf(m.key);
    if dimension.None? {
      var d := Decision(m.key, ActivityPreferences, None, m.confidence, Weak, false, UnsupportedKey);
      return Ok(p.(unsupported := AppendUnique(p.unsupported, m.key), log := p.log + [Entry(m, d)]));
    }
    var classified := Classify(m.memoryType, m.key, m.value, m.text, m.confidence, m.lifecycle);
    if classified.Err? {
      return Err(classified.error);
    }
    var audit := classified.value;
    var tier := if audit.tier.Some? then audit.tier.value else Weak;
    var d := Decision(m.key, dimension.value, audit.normalized, m.confidence, tier, audit.expired, UnrecognizedValue);
    if m.confidence.None? || (!audit.expired && !tier.Trusted?) {
      p := p.(lowConfidence := AppendUnique(p.lowConfidence, m.key));
    }
    if audit.expired {
      p := p.(expiredKeys := AppendUnique(p.expiredKeys, m.key));
    }
    if audit.normalized.None? {
      return Ok(p.(log := p.log + [Entry(m, d)]));
    }
    if UserOverrides(dimension.value, signals) {
      d := d.(outcome := SuppressedUserOverride);
      var current := CurrentValues(p, dimension.value);
      return Ok(p.(overrides := AppendUnique(p.overrides, dimension.value),
                   outcomes := p.outcomes + [DimensionOutcome(dimension.value, UserInput, current, [m.key])],
                   log := p.log + [Entry(m, d)]));
    }
    if tier.Weak? {
      d := d.(outcome := SuppressedWeakSignal);
      return Ok(p.(log := p.log + [Entry(m, d)]));
    }
    if dimension.value.ActivityPreferences? {
      p := p.(activity := AppendUnique(p.activity, audit.normalized.value));
    } else {
      p := p.(dining := AppendUnique(p.dining, audit.normalized.value));
    }
    p := p.(applied := AppendUnique(p.applied, m.key));
    if tier.Advisory? {
      p := p.(advisory := AppendUnique(p.advisory, m.key));
    }
    d := d.(outcome := if tier.Trusted? then AppliedTrusted else AppliedAdvisory);
    var current := CurrentValues(p, dimension.value);
    after := Ok(p.(log := p.log + [Entry(m, d)],
                   outcomes := p.outcomes + [DimensionOutcome(dimension.value, MemoryWins(m.key, tier), current, [])]));
  }

  method BuildPolicySummary(log: seq<LogEntry>) returns (s: Summary)
    ensures s == SummaryOf(log)
  {
    s := Summary(|log|, 0, 0, 0, 0, 0, 0, 0);
    for i := 0 to |log|
      invariant s == SummaryOf(log[..i]).(considered := |log|)
    {
      assert log[..i + 1][..i] == log[..i];
      match log[i].status {
        case Used => s := s.(used := s.used + 1);
        case IgnoredDecision => s := s.(ignored := s.ignored + 1);
        case Downgraded => s := s.(downgraded := s.downgraded + 1);
        case Overridden => s := s.(overridden := s.overridden + 1);
      }
      match log[i].influence {
        case Primary => s := s.(primary := s.primary + 1);
        case AdvisoryInfluence => s := s.(advisory := s.advisory + 1);
        case NoInfluence => s := s.(none := s.none + 1);
      }
    }
    assert log[..|log|] == log;
  }
}
