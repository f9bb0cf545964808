/** What the policy computes, told without its loop; and what does not influence it. */
module MemoryPolicyLaws {
  import opened Wrappers
  import opened MemoryAudit
  import opened MemoryPolicy
  import opened Counting
  import opened Sorting

  // ---- the accumulators, memory by memory --------------------------------------------------------

  /** The memory is considered, and its decision satisfies the condition of one of the key lists. */
  datatype KeyList = AppliedKeys | AdvisoryKeys | LowConfidenceKeys | ExpiredKeys | UnsupportedKeys

  predicate Listed(m: Memory, signals: Signals, list: KeyList) {
    m.memoryType == "preference" && Decide(m, signals).Ok? &&
    var d := Decide(m, signals).value;
    match list
    case AppliedKeys => Applies(d)
    case AdvisoryKeys => d.outcome.AppliedAdvisory?
    case LowConfidenceKeys => !d.outcome.UnsupportedKey? && (d.confidence.None? || (!d.expired && !d.tier.Trusted?))
    case ExpiredKeys => !d.outcome.UnsupportedKey? && d.expired
    case UnsupportedKeys => d.outcome.UnsupportedKey?
  }

  /** The keys of the listed memories, in order of first occurrence. */
  function KeysWhere(memories: seq<Memory>, signals: Signals, list: KeyList): seq<string> {
    if memories == [] then []
    else
      var last := memories[|memories| - 1];
      var before := KeysWhere(memories[..|memories| - 1], signals, list);
      if Listed(last, signals, list) then AppendUnique(before, last.key) else before
  }

  predicate AppliesTo(m: Memory, signals: Signals, dimension: Dimension) {
    Listed(m, signals, AppliedKeys) && Decide(m, signals).value.dimension == dimension
  }

  function ValueOf(m: Memory, signals: Signals): string {
    var d := Decide(m, signals);
    if d.Ok? && d.value.normalized.Some? then d.value.normalized.value else ""
  }

  /** The intent's values, then the values of the applied memories of the dimension, each at its first occurrence. */
  function EffectiveValues(
      start: seq<string>, memories: seq<Memory>, signals: Signals, dimension: Dimension): seq<string> {
    if memories == [] then start
    else
      var last := memories[|memories| - 1];
      var before := EffectiveValues(start, memories[..|memories| - 1], signals, dimension);
      if AppliesTo(last, signals, dimension) then AppendUnique(before, ValueOf(last, signals)) else before
  }

  function LogOf(memories: seq<Memory>, signals: Signals): seq<LogEntry> {
    if memories == [] then []
    else
      var last := memories[|memories| - 1];
      var before := LogOf(memories[..|memories| - 1], signals);
      if last.memoryType == "preference" && Decide(last, signals).Ok?
        then before + [Entry(last, Decide(last, signals).value)]
      else before
  }

  predicate Raises(m: Memory, signals: Signals) {
    m.memoryType == "preference" && Decide(m, signals).Err?
  }


  ghost predicate ListsFollow(p: Policy, memories: seq<Memory>, signals: Signals) {
    && p.applied == KeysWhere(memories, signals, AppliedKeys)
    && p.advisory == KeysWhere(memories, signals, AdvisoryKeys)
    && p.lowConfidence == KeysWhere(memories, signals, LowConfidenceKeys)
    && p.expiredKeys == KeysWhere(memories, signals, ExpiredKeys)
    && p.unsupported == KeysWhere(memories, signals, UnsupportedKeys)
    && p.log == LogOf(memories, signals)
  }

  /** The policy raises exactly when a considered memory has conflicting values. */
  lemma {:induction false} RaisesExactly(intent: Preferences, memories: seq<Memory>, signals: Signals)
    ensures Fold(intent, memories, signals).Err? <==> exists i | 0 <= i < |memories| :: Raises(memories[i], signals)
  {
    if memories != [] {
      var last := |memories| - 1;
      RaisesExactly(intent, memories[..last], signals);
      if i :| 0 <= i < last && Raises(memories[..last][i], signals) {
        assert Raises(memories[i], signals);
      }
      if i :| 0 <= i < |memories| && Raises(memories[i], signals) {
        assert i < last ==> Raises(memories[..last][i], signals);
      }
    }
  }

  /**
   * Every key list holds the keys of its memories in order of first occurrence, and the log one entry per considered
   * memory.
   */
  lemma {:induction false} ListsFollowDecisions(intent: Preferences, memories: seq<Memory>, signals: Signals)
    requires Fold(intent, memories, signals).Ok?
    ensures ListsFollow(Fold(intent, memories, signals).value, memories, signals)
  {
    if memories != [] {
      ListsFollowDecisions(intent, memories[..|memories| - 1], signals);
    }
  }

  lemma {:induction false} EffectiveFollowsDecisions(intent: Preferences, memories: seq<Memory>, signals: Signals)
    requires Fold(intent, memories, signals).Ok?
    ensures var p := Fold(intent, memories, signals).value;
            && p.activity == EffectiveValues(intent.activity, memories, signals, ActivityPreferences)
            && p.dining == EffectiveValues(intent.dining, memories, signals, DiningPreferences)
  {
    if memories != [] {
      EffectiveFollowsDecisions(intent, memories[..|memories| - 1], signals);
    }
  }

  ghost predicate NoDuplicates<T>(values: seq<T>) {
    forall i, j | 0 <= i < j < |values| :: values[i] != values[j]
  }

  // ---- the decision about one memory ---------------------------------------------------------------

  /** A preference stored under the key of the dimension. */
  ghost predicate Serves(m: Memory, dimension: Dimension) {
    m.memoryType == "preference" &&
    match dimension
    case ActivityPreferences => m.key == "activity_style"
    case DiningPreferences => m.key == "spouse_lighter_meals"
  }

  ghost predicate Signalled(dimension: Dimension, signals: Signals) {
    match dimension
    case ActivityPreferences => signals.activity
    case DiningPreferences => signals.dining
  }

  ghost predicate MeansOf(m: Memory, meaning: Option<string>) {
    Means(m.key, m.value, m.text, meaning)
  }

  /** What is decided, and logged, about a memory of a dimension that has that meaning, or none. */
  lemma {:induction false} DecidedExactly(m: Memory, signals: Signals, dimension: Dimension, meaning: Option<string>)
    requires Serves(m, dimension) && MeansOf(m, meaning)
    ensures Decide(m, signals).Ok?
    ensures var d := Decide(m, signals).value;
            var free := meaning.Some? && !Signalled(dimension, signals);
            var fully, advice := CountsFully(m.confidence, m.lifecycle), CountsAsAdvice(m.confidence, m.lifecycle);
            && d.key == m.key && d.dimension == dimension && d.normalized == meaning && d.confidence == m.confidence
            && d.expired == m.lifecycle.Expired? && (d.tier.Trusted? <==> fully) && (d.tier.Advisory? <==> advice)
            && (d.outcome.UnrecognizedValue? <==> meaning.None?)
            && (d.outcome.SuppressedUserOverride? <==> meaning.Some? && Signalled(dimension, signals))
            && (d.outcome.AppliedTrusted? <==> free && fully)
            && (d.outcome.AppliedAdvisory? <==> free && advice)
            && (d.outcome.SuppressedWeakSignal? <==> free && !fully && !advice)
  {
    AuditExactly(m.memoryType, m.key, m.value, m.text, m.confidence, m.lifecycle, meaning);
  }

  /** A preference under any other key is logged as unsupported. */
  lemma {:induction false} UnsupportedExactly(m: Memory, signals: Signals)
    ensures Decide(m, signals).Ok? && Decide(m, signals).value.outcome.UnsupportedKey? <==>
            m.key != "activity_style" && m.key != "spouse_lighter_meals"
    ensures Decide(m, signals).Err? <==>
            (m.key == "activity_style" || m.key == "spouse_lighter_meals") && forall meaning :: !MeansOf(m, meaning)
  {
    ConflictExactly(m.memoryType, m.key, m.value, m.text, m.confidence, m.lifecycle);
    forall meaning ensures MeansOf(m, meaning) <==> Means(m.key, m.value, m.text, meaning) {
    }
  }

  /** How a decision is logged: what was applied is used or downgraded, what was overridden says so. */
  lemma {:induction false} LoggedExactly(m: Memory, d: Decision)
    ensures var e := Entry(m, d);
            && e.id == m.id && e.decision == d
            && (e.status.Used? <==> d.outcome.AppliedTrusted?) && (e.influence.Primary? <==> d.outcome.AppliedTrusted?)
            && (e.status.Downgraded? <==> d.outcome.AppliedAdvisory?)
            && (e.influence.AdvisoryInfluence? <==> d.outcome.AppliedAdvisory?)
            && (e.status.Overridden? <==> d.outcome.SuppressedUserOverride?)
  {
  }

  /**
   * The memory gives the dimension that value: it serves it, means the value, the user gave no signal of their own, and
   * it counts, fully or as advice.
   */
  ghost predicate Governs(m: Memory, signals: Signals, dimension: Dimension, value: string) {
    && Serves(m, dimension) && MeansOf(m, Some(value)) && !Signalled(dimension, signals)
    && (CountsFully(m.confidence, m.lifecycle) || CountsAsAdvice(m.confidence, m.lifecycle))
  }

  lemma {:induction false} MeaningOf(m: Memory, signals: Signals, dimension: Dimension)
    returns (meaning: Option<string>)
    requires Serves(m, dimension) && Decide(m, signals).Ok?
    ensures MeansOf(m, meaning) && Decide(m, signals).value.normalized == meaning
  {
    UnsupportedExactly(m, signals);
    meaning :| MeansOf(m, meaning);
    DecidedExactly(m, signals, dimension, meaning);
  }

  /** A memory is applied to a dimension, with a value, exactly when it governs it. */
  lemma {:induction false} AppliedExactly(m: Memory, signals: Signals, dimension: Dimension, value: string)
    ensures AppliesTo(m, signals, dimension) && ValueOf(m, signals) == value <==> Governs(m, signals, dimension, value)
  {
    if AppliesTo(m, signals, dimension) {
      UnsupportedExactly(m, signals);
      assert Serves(m, dimension);
      var meaning := MeaningOf(m, signals, dimension);
      DecidedExactly(m, signals, dimension, meaning);
    }
    if Governs(m, signals, dimension, value) {
      DecidedExactly(m, signals, dimension, Some(value));
    }
  }

  /** Which memories a key list lists. */
  ghost predicate OnList(m: Memory, signals: Signals, list: KeyList) {
    match list
    case UnsupportedKeys =>
      m.memoryType == "preference" && m.key != "activity_style" && m.key != "spouse_lighter_meals"
    case AppliedKeys => exists dimension, value :: Governs(m, signals, dimension, value)
    case AdvisoryKeys =>
      CountsAsAdvice(m.confidence, m.lifecycle) && exists dimension, value :: Governs(m, signals, dimension, value)
    case LowConfidenceKeys =>
      && (exists dimension, meaning :: Serves(m, dimension) && MeansOf(m, meaning))
      && (m.confidence.None? || (!m.lifecycle.Expired? && !CountsFully(m.confidence, m.lifecycle)))
    case ExpiredKeys =>
      m.lifecycle.Expired? && exists dimension, meaning :: Serves(m, dimension) && MeansOf(m, meaning)
  }

  lemma {:induction false} AppliedSomewhere(m: Memory, signals: Signals)
    ensures Listed(m, signals, AppliedKeys) <==> exists dimension, value :: Governs(m, signals, dimension, value)
  {
    if Listed(m, signals, AppliedKeys) {
      var dimension := Decide(m, signals).value.dimension;
      AppliedExactly(m, signals, dimension, ValueOf(m, signals));
    }
    if dimension, value :| Governs(m, signals, dimension, value) {
      AppliedExactly(m, signals, dimension, value);
    }
  }

  lemma {:induction false} MeantSomewhere(m: Memory, signals: Signals)
    ensures m.memoryType == "preference"
              && Decide(m, signals).Ok? && !Decide(m, signals).value.outcome.UnsupportedKey? <==>
            exists dimension, meaning :: Serves(m, dimension) && MeansOf(m, meaning)
    ensures m.memoryType == "preference"
              && Decide(m, signals).Ok? && !Decide(m, signals).value.outcome.UnsupportedKey? ==>
              var d := Decide(m, signals).value;
              && d.confidence == m.confidence && d.expired == m.lifecycle.Expired?
              && (d.tier.Trusted? <==> CountsFully(m.confidence, m.lifecycle))
              && (d.outcome.AppliedAdvisory? <==> Applies(d) && CountsAsAdvice(m.confidence, m.lifecycle))
  {
    UnsupportedExactly(m, signals);
    if dimension, meaning :| Serves(m, dimension) && MeansOf(m, meaning) {
      DecidedExactly(m, signals, dimension, meaning);
    }
    if m.memoryType == "preference" && Decide(m, signals).Ok? && !Decide(m, signals).value.outcome.UnsupportedKey? {
      assert Serves(m, ActivityPreferences) || Serves(m, DiningPreferences);
    }
  }

  lemma {:induction false} ListedExactly(m: Memory, signals: Signals, list: KeyList)
    ensures Listed(m, signals, list) <==> OnList(m, signals, list)
  {
    UnsupportedExactly(m, signals);
    AppliedSomewhere(m, signals);
    MeantSomewhere(m, signals);
  }

  ghost predicate KeyListed(memories: seq<Memory>, signals: Signals, list: KeyList, key: string) {
    exists i | 0 <= i < |memories| :: memories[i].key == key && OnList(memories[i], signals, list)
  }

  lemma {:induction false} KeyListedGrows(prefix: seq<Memory>, m: Memory, signals: Signals, list: KeyList, key: string)
    ensures KeyListed(prefix + [m], signals, list, key) <==>
            KeyListed(prefix, signals, list, key) || (m.key == key && OnList(m, signals, list))
  {
    var all := prefix + [m];
    if i :| 0 <= i < |prefix| && prefix[i].key == key && OnList(prefix[i], signals, list) {
      assert all[i] == prefix[i];
    }
    if m.key == key && OnList(m, signals, list) {
      assert all[|prefix|] == m;
    }
    if i :| 0 <= i < |all| && all[i].key == key && OnList(all[i], signals, list) {
      assert all[i] == if i < |prefix| then prefix[i] else m;
    }
  }

  lemma {:induction false} AppendedUnique(keys: seq<string>, key: string)
    requires NoDuplicates(keys)
    ensures NoDuplicates(AppendUnique(keys, key))
    ensures forall k :: k in AppendUnique(keys, key) <==> k in keys || k == key
  {
  }

  lemma {:induction false} KeysAreTheListed(memories: seq<Memory>, signals: Signals, list: KeyList)
    ensures NoDuplicates(KeysWhere(memories, signals, list))
    ensures forall key :: key in KeysWhere(memories, signals, list) <==> KeyListed(memories, signals, list, key)
  {
    if memories != [] {
      var prefix, m := memories[..|memories| - 1], memories[|memories| - 1];
      assert memories == prefix + [m];
      KeysAreTheListed(prefix, signals, list);
      ListedExactly(m, signals, list);
      AppendedUnique(KeysWhere(prefix, signals, list), m.key);
      forall key ensures key in KeysWhere(memories, signals, list) <==> KeyListed(memories, signals, list, key) {
        KeyListedGrows(prefix, m, signals, list, key);
      }
    }
  }

  // ---- the effective preferences -----------------------------------------------------------------

  ghost predicate Backed(value: string, memories: seq<Memory>, signals: Signals, dimension: Dimension) {
    exists i | 0 <= i < |memories| :: Governs(memories[i], signals, dimension, value)
  }

  lemma {:induction false} BackedGrows(value: string, memories: seq<Memory>, signals: Signals, dimension: Dimension)
    requires memories != []
    ensures Backed(value, memories, signals, dimension) <==>
            || Backed(value, memories[..|memories| - 1], signals, dimension)
            || Governs(memories[|memories| - 1], signals, dimension, value)
  {
    var last := |memories| - 1;
    if i :| 0 <= i < last && Governs(memories[..last][i], signals, dimension, value) {
      assert Governs(memories[i], signals, dimension, value);
    }
    if i :| 0 <= i < |memories| && Governs(memories[i], signals, dimension, value) {
      assert i < last ==> Governs(memories[..last][i], signals, dimension, value);
    }
  }

  /**
   * The effective list of a dimension is the intent's list followed by distinct new values, and it holds exactly the
   * intent's values and those that some memory gives the dimension.
   */
  lemma {:induction false} EffectiveExactly(
      start: seq<string>, memories: seq<Memory>, signals: Signals, dimension: Dimension)
    ensures var effective := EffectiveValues(start, memories, signals, dimension);
            && start <= effective
            && NoDuplicates(effective[|start|..])
            && (forall value | value in effective[|start|..] :: value !in start)
            && (forall value :: value in effective <==> value in start || Backed(value, memories, signals, dimension))
  {
    var effective := EffectiveValues(start, memories, signals, dimension);
    if memories != [] {
      var before := EffectiveValues(start, memories[..|memories| - 1], signals, dimension);
      EffectiveExactly(start, memories[..|memories| - 1], signals, dimension);
      assert effective == before || effective[|start|..] == before[|start|..] + [effective[|effective| - 1]];
      forall value ensures value in effective <==> value in start || Backed(value, memories, signals, dimension) {
        BackedGrows(value, memories, signals, dimension);
        AppliedExactly(memories[|memories| - 1], signals, dimension, value);
      }
    }
  }

  /** What the user said wins: whatever the memories are, the dimension keeps the intent's own list. */
  lemma {:induction false} UserInputWins(
      start: seq<string>, memories: seq<Memory>, signals: Signals, dimension: Dimension)
    requires UserOverrides(dimension, signals)
    ensures EffectiveValues(start, memories, signals, dimension) == start
  {
    if memories != [] {
      UserInputWins(start, memories[..|memories| - 1], signals, dimension);
    }
  }

  /**
   * A memory whose lifecycle is neither active nor expired may stand anywhere in the list without any effect on the
   * values.
   */
  lemma {:induction false} UngovernedMemoryIsInert(
    start: seq<string>, before: seq<Memory>, m: Memory, behind: seq<Memory>, signals: Signals, dimension: Dimension)
    requires !m.lifecycle.Active? && !m.lifecycle.Expired?
    ensures EffectiveValues(start, before + [m] + behind, signals, dimension)
            == EffectiveValues(start, before + behind, signals, dimension)
    decreases |behind|
  {
    var with, without := before + [m] + behind, before + behind;
    if behind == [] {
      assert with[..|with| - 1] == before == without;
    } else {
      var last := |behind| - 1;
      assert with[..|with| - 1] == before + [m] + behind[..last];
      assert without[..|without| - 1] == before + behind[..last];
      UngovernedMemoryIsInert(start, before, m, behind[..last], signals, dimension);
    }
  }

  // ---- order does not matter ---------------------------------------------------------------------

  lemma {:induction false} BackedPermutes(
      value: string, a: seq<Memory>, b: seq<Memory>, signals: Signals, dimension: Dimension)
    requires multiset(a) == multiset(b) && Backed(value, a, signals, dimension)
    ensures Backed(value, b, signals, dimension)
  {
    var i :| 0 <= i < |a| && Governs(a[i], signals, dimension, value);
    assert a[i] in multiset(b);
    var j :| 0 <= j < |b| && b[j] == a[i];
  }

  /** Memories in another order yield the same effective values. */
  lemma {:induction false} EffectivePermutes(
      start: seq<string>, a: seq<Memory>, b: seq<Memory>, signals: Signals, dimension: Dimension)
    requires multiset(a) == multiset(b)
    ensures forall value :: value in EffectiveValues(start, a, signals, dimension) <==>
            value in EffectiveValues(start, b, signals, dimension)
  {
    EffectiveExactly(start, a, signals, dimension);
    EffectiveExactly(start, b, signals, dimension);
    forall value
      ensures value in EffectiveValues(start, a, signals, dimension) <==>
              value in EffectiveValues(start, b, signals, dimension)
    {
      if Backed(value, a, signals, dimension) {
        BackedPermutes(value, a, b, signals, dimension);
      }
      if Backed(value, b, signals, dimension) {
        BackedPermutes(value, b, a, signals, dimension);
      }
    }
  }

  lemma {:induction false} RaisesPermutes(intent: Preferences, a: seq<Memory>, b: seq<Memory>, signals: Signals)
    requires multiset(a) == multiset(b) && Fold(intent, a, signals).Err?
    ensures Fold(intent, b, signals).Err?
  {
    RaisesExactly(intent, a, signals);
    RaisesExactly(intent, b, signals);
    var i :| 0 <= i < |a| && Raises(a[i], signals);
    assert a[i] in multiset(b);
    var j :| 0 <= j < |b| && b[j] == a[i];
    assert Raises(b[j], signals);
  }

  predicate Logged(m: Memory, signals: Signals) {
    m.memoryType == "preference" && Decide(m, signals).Ok?
  }

  predicate HasStatus(m: Memory, signals: Signals, status: DecisionStatus) {
    Logged(m, signals) && StatusOf(Decide(m, signals).value.outcome) == status
  }

  predicate HasInfluence(m: Memory, signals: Signals, influence: Influence) {
    Logged(m, signals) && InfluenceOf(Decide(m, signals).value.outcome) == influence
  }

  lemma {:induction false} LogCounts(
      memories: seq<Memory>, signals: Signals, status: DecisionStatus, influence: Influence)
    ensures var log := LogOf(memories, signals);
            && |log| == CountBy(memories, (m: Memory) => Logged(m, signals))
            && CountStatus(log, status) == CountBy(memories, (m: Memory) => HasStatus(m, signals, status))
            && CountInfluence(log, influence) == CountBy(memories, (m: Memory) => HasInfluence(m, signals, influence))
  {
    if memories != [] {
      LogCounts(memories[..|memories| - 1], signals, status, influence);
    }
  }

  lemma {:induction false} CountsPermute(
      a: seq<Memory>, b: seq<Memory>, signals: Signals, status: DecisionStatus, influence: Influence)
    requires multiset(a) == multiset(b)
    ensures |LogOf(a, signals)| == |LogOf(b, signals)|
    ensures CountStatus(LogOf(a, signals), status) == CountStatus(LogOf(b, signals), status)
    ensures CountInfluence(LogOf(a, signals), influence) == CountInfluence(LogOf(b, signals), influence)
  {
    LogCounts(a, signals, status, influence);
    LogCounts(b, signals, status, influence);
    CountPermutes(a, b, (m: Memory) => Logged(m, signals));
    CountPermutes(a, b, (m: Memory) => HasStatus(m, signals, status));
    CountPermutes(a, b, (m: Memory) => HasInfluence(m, signals, influence));
  }

  /**
   * Permuting the memories changes neither whether the policy raises, nor the set of effective values of a dimension,
   * nor any count of the summary.
   */
  lemma {:induction false} OrderOfMemoriesIsIrrelevant(
      intent: Preferences, signals: Signals, a: seq<Memory>, b: seq<Memory>)
    requires multiset(a) == multiset(b)
    ensures PolicyFor(intent, signals, a).Ok? <==> PolicyFor(intent, signals, b).Ok?
    ensures PolicyFor(intent, signals, a).Ok? ==>
              var ra, rb := PolicyFor(intent, signals, a).value, PolicyFor(intent, signals, b).value;
              && (forall value :: value in ra.effective.activity <==> value in rb.effective.activity)
              && (forall value :: value in ra.effective.dining <==> value in rb.effective.dining)
              && ra.summary == rb.summary
  {
    if Fold(intent, a, signals).Err? {
      RaisesPermutes(intent, a, b, signals);
    } else if Fold(intent, b, signals).Err? {
      RaisesPermutes(intent, b, a, signals);
    } else {
      EffectiveFollowsDecisions(intent, a, signals);
      EffectiveFollowsDecisions(intent, b, signals);
      EffectivePermutes(intent.activity, a, b, signals, ActivityPreferences);
      EffectivePermutes(intent.dining, a, b, signals, DiningPreferences);
      ListsFollowDecisions(intent, a, signals);
      ListsFollowDecisions(intent, b, signals);
      CountsPermute(a, b, signals, Used, Primary);
      CountsPermute(a, b, signals, IgnoredDecision, AdvisoryInfluence);
      CountsPermute(a, b, signals, Downgraded, NoInfluence);
      CountsPermute(a, b, signals, Overridden, NoInfluence);
    }
  }

  // ---- the counts ----------------------------------------------------------------------------------

  ghost predicate Consistent(e: LogEntry) {
    e.status == StatusOf(e.decision.outcome) && e.influence == InfluenceOf(e.decision.outcome)
  }

  lemma {:induction false} LogIsConsistent(memories: seq<Memory>, signals: Signals)
    ensures forall e | e in LogOf(memories, signals) :: Consistent(e)
  {
    if memories != [] {
      LogIsConsistent(memories[..|memories| - 1], signals);
    }
  }

  lemma {:induction false} CountsBalance(log: seq<LogEntry>)
    requires forall e | e in log :: Consistent(e)
    ensures var s := SummaryOf(log);
            && s.considered == s.used + s.ignored + s.downgraded + s.overridden
            && s.used == s.primary && s.downgraded == s.advisory && s.ignored + s.overridden == s.none
  {
    if log != [] {
      var last := |log| - 1;
      assert log == log[..last] + [log[last]];
      assert log[last] in log;
      CountsBalance(log[..last]);
    }
  }

  /** Every considered memory is used, ignored, downgraded or overridden, and its influence follows from which. */
  lemma {:induction false} SummaryBalances(intent: Preferences, signals: Signals, memories: seq<Memory>)
    requires PolicyFor(intent, signals, memories).Ok?
    ensures var s := PolicyFor(intent, signals, memories).value.summary;
            && s.considered == s.used + s.ignored + s.downgraded + s.overridden
            && s.used == s.primary && s.downgraded == s.advisory && s.ignored + s.overridden == s.none
  {
    ListsFollowDecisions(intent, memories, signals);
    LogIsConsistent(memories, signals);
    CountsBalance(LogOf(memories, signals));
  }

  /** A preference that gives its dimension a value, with full weight. */
  ghost predicate IsUsed(m: Memory, signals: Signals) {
    CountsFully(m.confidence, m.lifecycle) && exists dimension, value :: Governs(m, signals, dimension, value)
  }

  ghost predicate IsDowngraded(m: Memory, signals: Signals) {
    CountsAsAdvice(m.confidence, m.lifecycle) && exists dimension, value :: Governs(m, signals, dimension, value)
  }

  /** A preference that means something, in a dimension that the user's own words decide. */
  ghost predicate IsOverridden(m: Memory, signals: Signals) {
    exists dimension, value :: Serves(m, dimension) && MeansOf(m, Some(value)) && Signalled(dimension, signals)
  }

  ghost predicate Meets(m: Memory, signals: Signals, status: DecisionStatus) {
    && m.memoryType == "preference"
    && match status
       case Used => IsUsed(m, signals)
       case Downgraded => IsDowngraded(m, signals)
       case Overridden => IsOverridden(m, signals)
       case IgnoredDecision => !IsUsed(m, signals) && !IsDowngraded(m, signals) && !IsOverridden(m, signals)
  }

  lemma {:induction false} StatusExactly(m: Memory, signals: Signals, status: DecisionStatus)
    requires !Raises(m, signals)
    ensures HasStatus(m, signals, status) <==> Meets(m, signals, status)
  {
    UnsupportedExactly(m, signals);
    if Serves(m, ActivityPreferences) || Serves(m, DiningPreferences) {
      var dimension := if m.key == "activity_style" then ActivityPreferences else DiningPreferences;
      var meaning := MeaningOf(m, signals, dimension);
      DecidedExactly(m, signals, dimension, meaning);
      ServedExactly(m, signals, dimension, meaning);
    }
  }

  lemma {:induction false} ServedExactly(
      m: Memory, signals: Signals, dimension: Dimension, meaning: Option<string>)
    requires Serves(m, dimension) && MeansOf(m, meaning)
    ensures var free := meaning.Some? && !Signalled(dimension, signals);
            && (IsUsed(m, signals) <==> free && CountsFully(m.confidence, m.lifecycle))
            && (IsDowngraded(m, signals) <==> free && CountsAsAdvice(m.confidence, m.lifecycle))
            && (IsOverridden(m, signals) <==> meaning.Some? && Signalled(dimension, signals))
  {
    if meaning.Some? {
      assert Serves(m, dimension) && MeansOf(m, Some(meaning.value));
      assert Governs(m, signals, dimension, meaning.value) <==>
             && !Signalled(dimension, signals)
             && (CountsFully(m.confidence, m.lifecycle) || CountsAsAdvice(m.confidence, m.lifecycle));
    }
  }

  /** Each counter is the number of memories that met that fate; what is considered are the preferences. */
  lemma {:induction false} SummaryExactly(intent: Preferences, signals: Signals, memories: seq<Memory>)
    requires PolicyFor(intent, signals, memories).Ok?
    ensures var s := PolicyFor(intent, signals, memories).value.summary;
            && s.considered == CountBy(memories, (m: Memory) => m.memoryType == "preference")
            && s.used == s.primary == CountBy(memories, (m: Memory) => Meets(m, signals, Used))
            && s.downgraded == s.advisory == CountBy(memories, (m: Memory) => Meets(m, signals, Downgraded))
            && s.overridden == CountBy(memories, (m: Memory) => Meets(m, signals, Overridden))
            && s.ignored == CountBy(memories, (m: Memory) => Meets(m, signals, IgnoredDecision))
  {
    RaisesExactly(intent, memories, signals);
    ListsFollowDecisions(intent, memories, signals);
    SummaryBalances(intent, signals, memories);
    assert forall m | m in memories :: !Raises(m, signals) by {
      forall m | m in memories ensures !Raises(m, signals) {
        var i :| 0 <= i < |memories| && memories[i] == m;
      }
    }
    LogCounts(memories, signals, Used, Primary);
    CountAlike(memories, (m: Memory) => Logged(m, signals), (m: Memory) => m.memoryType == "preference");
    StatusCounted(memories, signals, Used);
    StatusCounted(memories, signals, Downgraded);
    StatusCounted(memories, signals, Overridden);
    StatusCounted(memories, signals, IgnoredDecision);
  }

  lemma {:induction false} StatusCounted(memories: seq<Memory>, signals: Signals, status: DecisionStatus)
    requires forall m | m in memories :: !Raises(m, signals)
    ensures CountStatus(LogOf(memories, signals), status)
            == CountBy(memories, (m: Memory) => Meets(m, signals, status))
  {
    LogCounts(memories, signals, status, Primary);
    forall m | m in memories ensures HasStatus(m, signals, status) <==> Meets(m, signals, status) {
      StatusExactly(m, signals, status);
    }
    CountAlike(memories, (m: Memory) => HasStatus(m, signals, status), (m: Memory) => Meets(m, signals, status));
  }

  // ---- the recorded winners ------------------------------------------------------------------------

  /** Who wins the dimension of a memory that means something; nobody does when it is too weak. */
  ghost function WinnerOf(m: Memory, signals: Signals, activity: seq<string>, dining: seq<string>)
    : seq<DimensionOutcome>
  {
    var dimension := if m.key == "activity_style" then ActivityPreferences else DiningPreferences;
    var values := if m.key == "activity_style" then activity else dining;
    if !Serves(m, dimension) || !(exists value :: MeansOf(m, Some(value))) then []
    else if Signalled(dimension, signals) then [DimensionOutcome(dimension, UserInput, values, [m.key])]
    else if CountsFully(m.confidence, m.lifecycle) then
      [DimensionOutcome(dimension, MemoryWins(m.key, Trusted), values, [])]
    else if CountsAsAdvice(m.confidence, m.lifecycle) then
      [DimensionOutcome(dimension, MemoryWins(m.key, Advisory), values, [])]
    else []
  }

  /** The winners in the order of the memories, each with the values effective then. */
  ghost function WinnersOf(intent: Preferences, memories: seq<Memory>, signals: Signals): seq<DimensionOutcome> {
    if memories == [] then []
    else
      WinnersOf(intent, memories[..|memories| - 1], signals)
      + WinnerOf(memories[|memories| - 1], signals,
                 EffectiveValues(intent.activity, memories, signals, ActivityPreferences),
                 EffectiveValues(intent.dining, memories, signals, DiningPreferences))
  }

  lemma {:induction false} WinnerRecorded(p: Policy, m: Memory, signals: Signals)
    requires Consider(p, m, signals).Ok?
    ensures var next := Consider(p, m, signals).value;
            next.outcomes == p.outcomes + WinnerOf(m, signals, next.activity, next.dining)
  {
    var dimension := if m.key == "activity_style" then ActivityPreferences else DiningPreferences;
    UnsupportedExactly(m, signals);
    if Serves(m, dimension) {
      var meaning := MeaningOf(m, signals, dimension);
      DecidedExactly(m, signals, dimension, meaning);
      forall value | MeansOf(m, Some(value)) ensures meaning == Some(value) {
      }
      if meaning.Some? {
        assert MeansOf(m, Some(meaning.value));
      }
    }
  }

  lemma {:induction false} WinnersFollow(intent: Preferences, memories: seq<Memory>, signals: Signals)
    requires Fold(intent, memories, signals).Ok?
    ensures Fold(intent, memories, signals).value.outcomes == WinnersOf(intent, memories, signals)
  {
    if memories != [] {
      var last := |memories| - 1;
      WinnersFollow(intent, memories[..last], signals);
      WinnerRecorded(Fold(intent, memories[..last], signals).value, memories[last], signals);
      EffectiveFollowsDecisions(intent, memories, signals);
    }
  }

  /** A memory of the dimension meant something, and the user's words overrode it. */
  ghost predicate Overrode(memories: seq<Memory>, signals: Signals, dimension: Dimension) {
    && Signalled(dimension, signals)
    && exists i, value | 0 <= i < |memories| :: Serves(memories[i], dimension) && MeansOf(memories[i], Some(value))
  }

  lemma {:induction false} OverrodeGrows(prefix: seq<Memory>, m: Memory, signals: Signals, dimension: Dimension)
    ensures Overrode(prefix + [m], signals, dimension) <==>
            || Overrode(prefix, signals, dimension)
            || (Signalled(dimension, signals) && exists value :: Serves(m, dimension) && MeansOf(m, Some(value)))
  {
    var all := prefix + [m];
    if i, value :| 0 <= i < |prefix| && Serves(prefix[i], dimension) && MeansOf(prefix[i], Some(value)) {
      assert all[i] == prefix[i];
    }
    if value :| Serves(m, dimension) && MeansOf(m, Some(value)) {
      assert all[|prefix|] == m;
    }
    if i, value :| 0 <= i < |all| && Serves(all[i], dimension) && MeansOf(all[i], Some(value)) {
      assert all[i] == if i < |prefix| then prefix[i] else m;
    }
  }

  lemma {:induction false} OverrideRecorded(p: Policy, m: Memory, signals: Signals, dimension: Dimension)
    requires Consider(p, m, signals).Ok?
    ensures dimension in Consider(p, m, signals).value.overrides <==>
            || dimension in p.overrides
            || (Signalled(dimension, signals) && exists value :: Serves(m, dimension) && MeansOf(m, Some(value)))
  {
    UnsupportedExactly(m, signals);
    if Serves(m, ActivityPreferences) || Serves(m, DiningPreferences) {
      var served := if m.key == "activity_style" then ActivityPreferences else DiningPreferences;
      var meaning := MeaningOf(m, signals, served);
      DecidedExactly(m, signals, served, meaning);
      assert meaning.Some? ==> MeansOf(m, Some(meaning.value));
    }
  }

  /** The dimensions that the user is reported to have overridden are exactly those. */
  lemma {:induction false} OverridesExactly(
      intent: Preferences, memories: seq<Memory>, signals: Signals, dimension: Dimension)
    requires Fold(intent, memories, signals).Ok?
    ensures dimension in Fold(intent, memories, signals).value.overrides <==> Overrode(memories, signals, dimension)
  {
    if memories != [] {
      var prefix, m := memories[..|memories| - 1], memories[|memories| - 1];
      assert memories == prefix + [m];
      OverridesExactly(intent, prefix, signals, dimension);
      OverrideRecorded(Fold(intent, prefix, signals).value, m, signals, dimension);
      OverrodeGrows(prefix, m, signals, dimension);
    }
  }

  function OfDimension(outcomes: seq<DimensionOutcome>, dimension: Dimension): seq<DimensionOutcome> {
    if outcomes == [] then []
    else
      OfDimension(outcomes[..|outcomes| - 1], dimension)
      + if outcomes[|outcomes| - 1].dimension == dimension then [outcomes[|outcomes| - 1]] else []
  }

  lemma {:induction false} OfDimensionOnly(outcomes: seq<DimensionOutcome>, dimension: Dimension)
    ensures forall o | o in OfDimension(outcomes, dimension) :: o.dimension == dimension
  {
    if outcomes != [] {
      OfDimensionOnly(outcomes[..|outcomes| - 1], dimension);
    }
  }

  /** Inserting behind those of its own dimension, and before the others. */
  lemma {:induction false} InsertByDimension(
      activity: seq<DimensionOutcome>, dining: seq<DimensionOutcome>, o: DimensionOutcome)
    requires (forall x | x in activity :: x.dimension == ActivityPreferences)
    requires (forall x | x in dining :: x.dimension == DiningPreferences)
    ensures InsertBy(activity + dining, o, DimensionOrder)
            == if o.dimension.ActivityPreferences? then activity + [o] + dining else activity + dining + [o]
  {
    if o.dimension.ActivityPreferences? && dining != [] {
      var last := |dining| - 1;
      assert (activity + dining)[..|activity + dining| - 1] == activity + dining[..last];
      assert dining[last] in dining;
      InsertByDimension(activity, dining[..last], o);
      assert dining == dining[..last] + [dining[last]];
    } else {
      assert activity + dining != [] ==> (activity + dining)[|activity + dining| - 1] in activity + dining;
      assert dining == [] ==> activity + [o] + dining == activity + dining + [o];
    }
  }

  lemma {:induction false} SortedByDimension(outcomes: seq<DimensionOutcome>)
    ensures SortBy(outcomes, DimensionOrder)
            == OfDimension(outcomes, ActivityPreferences) + OfDimension(outcomes, DiningPreferences)
  {
    if outcomes != [] {
      var prefix := outcomes[..|outcomes| - 1];
      SortedByDimension(prefix);
      OfDimensionOnly(prefix, ActivityPreferences);
      OfDimensionOnly(prefix, DiningPreferences);
      InsertByDimension(OfDimension(prefix, ActivityPreferences), OfDimension(prefix, DiningPreferences),
                        outcomes[|outcomes| - 1]);
    }
  }

  /** The intent's values, then new ones, each once; what some memory gives the dimension, and nothing else. */
  ghost predicate Extends(
      effective: seq<string>, start: seq<string>, memories: seq<Memory>, signals: Signals, dimension: Dimension)
  {
    && start <= effective && NoDuplicates(effective[|start|..])
    && (forall value | value in effective[|start|..] :: value !in start)
    && (forall value :: value in effective <==> value in start || Backed(value, memories, signals, dimension))
  }

  /** A supported preference with two meanings. */
  ghost predicate Conflicts(m: Memory) {
    && m.memoryType == "preference" && (m.key == "activity_style" || m.key == "spouse_lighter_meals")
    && forall meaning :: !MeansOf(m, meaning)
  }

  /** The whole policy: it raises exactly on a conflict, and otherwise each dimension has its own effective values. */
  lemma {:induction false} PolicyExactly(intent: Preferences, signals: Signals, memories: seq<Memory>)
    ensures PolicyFor(intent, signals, memories).Err? <==> exists i | 0 <= i < |memories| :: Conflicts(memories[i])
    ensures PolicyFor(intent, signals, memories).Ok? ==>
              var result := PolicyFor(intent, signals, memories).value;
              && Extends(result.effective.activity, intent.activity, memories, signals, ActivityPreferences)
              && Extends(result.effective.dining, intent.dining, memories, signals, DiningPreferences)
              && ListsFollow(result.policy, memories, signals)
              && result.policy.activity == result.effective.activity && result.policy.dining == result.effective.dining
  {
    RaisesExactly(intent, memories, signals);
    forall m | m in memories ensures Raises(m, signals) <==> Conflicts(m) {
      UnsupportedExactly(m, signals);
    }
    if Fold(intent, memories, signals).Ok? {
      EffectiveFollowsDecisions(intent, memories, signals);
      ListsFollowDecisions(intent, memories, signals);
      EffectiveExactly(intent.activity, memories, signals, ActivityPreferences);
      EffectiveExactly(intent.dining, memories, signals, DiningPreferences);
    }
  }

  /** The report: the winners of activity preferences in the order of their memories, and then those of dining. */
  lemma {:induction false} WinnersAreReported(intent: Preferences, signals: Signals, memories: seq<Memory>)
    requires PolicyFor(intent, signals, memories).Ok?
    ensures var winners := WinnersOf(intent, memories, signals);
            PolicyFor(intent, signals, memories).value.policy.outcomes
            == OfDimension(winners, ActivityPreferences) + OfDimension(winners, DiningPreferences)
  {
    WinnersFollow(intent, memories, signals);
    SortedByDimension(WinnersOf(intent, memories, signals));
  }
}
