/** Lifecycle, normalised preference value and trust tier of a stored memory. */
module MemoryAudit {
  import opened Wrappers
  import opened Strings
  import opened JsonTrees

  datatype Lifecycle = Active | Expired | Disabled | Ignored | Candidate

  /** A point in time; values that come from the database always carry a time zone. */
  datatype Timestamp = Timestamp(at: int, zoned: bool)

  datatype Tier = Trusted | Advisory | Weak

  datatype AuditStatus = TrustedAudit | AdvisoryAudit | WeakAudit | Unsupported | NotGovernable

  datatype AuditReason =
    | TrustedMemoryApplied
    | LowConfidenceDowngraded
    | ExpiredMemoryDowngraded
    | WeakSignalNotApplied
    | UnsupportedProjectedKey
    | UnrecognizedSupportedValue
    | NonGovernableLifecycle

  datatype Audit = Audit(
    normalized: Option<string>, governable: bool, expired: bool, tier: Option<Tier>, status: AuditStatus,
    reason: AuditReason)

  /** The value and the text of a memory normalise to different preferences. */
  datatype AuditError = ConflictingValues

  const TRUSTED_CONFIDENCE_THRESHOLD := 0.8
  const ADVISORY_CONFIDENCE_THRESHOLD := 0.5
  const SUPPORTED_KEYS: set<string> := {"activity_style", "spouse_lighter_meals"}

  /** `normalize_memory_status`: None for a status that is not supported. */
  function NormalizeStatus(status: string): Option<Lifecycle> {
    if status == "active" then Some(Active)
    else if status == "expired" then Some(Expired)
    else if status == "disabled" then Some(Disabled)
    else if status == "ignored" || status == "archived" then Some(Ignored)
    else if status == "candidate" then Some(Candidate)
    else None
  }

  function ResolveLifecycle(status: Lifecycle, expiresAt: Option<Timestamp>, now: int): Lifecycle {
    if !status.Active? then status
    else if expiresAt.Some? && expiresAt.value.at <= now then Expired
    else Active
  }

  const CITYWALK_PARTS: set<string> := {"citywalk", "city walk", "\U{9369}\U{5ea1}\U{7af6}\U{5a55}\U{e0a3}\U{e11e}"}
  const INDOOR_PARTS: set<string> := {"indoor", "inside", "\U{7039}\U{3085}\U{5534}"}
  const OUTDOOR_PARTS: set<string> := {"outdoor", "outside", "\U{93b4}\U{5cf0}\U{e63b}", "\U{7039}\U{3085}\U{e63b}"}
  const LIGHTER_PARTS: set<string> :=
    {"lighter_options", "lighter", "light food", "light meals", "\U{5a13}\U{546e}\U{8d30}"}

  function NormalizeText(key: string, text: string): Option<string> {
    var normalized := Fold(Trim(text));
    if normalized == "" then None
    else if key == "activity_style" then
      if ContainsAny(normalized, CITYWALK_PARTS) then Some("citywalk")
      else if ContainsAny(normalized, INDOOR_PARTS) then Some("indoor")
      else if ContainsAny(normalized, OUTDOOR_PARTS) then Some("outdoor")
      else None
    else if key == "spouse_lighter_meals" then
      if ContainsAny(normalized, LIGHTER_PARTS) then Some("lighter_options") else None
    else None
  }

  function NormalizeValue(key: string, value: Option<Json>): Option<string> {
    match value
    case Some(Str(text)) => NormalizeText(key, text)
    case _ => None
  }

  function PreferenceField(value: Json): Option<Json> {
    if value.Obj? then Lookup(value.fields, "preference") else None
  }

  function OrElse(first: Option<string>, second: Option<string>): Option<string> {
    if first.Some? then first else second
  }

  /** `normalize_supported_preference_value`. */
  function NormalizePreference(key: string, value: Json, text: Option<string>): Result<Option<string>, AuditError> {
    var fromValue := NormalizeValue(key, PreferenceField(value));
    var fromText := if text.Some? then NormalizeText(key, text.value) else None;
    if fromValue.Some? && fromText.Some? && fromValue != fromText then Err(ConflictingValues)
    else Ok(OrElse(fromValue, fromText))
  }

  /** `memory_tier`; the confidence is None when it cannot be parsed. */
  function TierOf(confidence: Option<real>, expired: bool): Tier {
    if confidence.None? then Weak
    else if confidence.value >= TRUSTED_CONFIDENCE_THRESHOLD then if expired then Advisory else Trusted
    else if confidence.value >= ADVISORY_CONFIDENCE_THRESHOLD && !expired then Advisory
    else Weak
  }

  /** `classify_memory_governance_audit`, on a lifecycle that is resolved already. */
  function Classify(
      memoryType: string, key: string, value: Json, text: Option<string>, confidence: Option<real>,
      lifecycle: Lifecycle)
    : Result<Audit, AuditError>
  {
    match NormalizePreference(key, value, text)
    case Err(e) => Err(e)
    case Ok(normalized) =>
      var expired := lifecycle.Expired?;
      if memoryType != "preference" || key !in SUPPORTED_KEYS then
        Ok(Audit(None, false, false, None, Unsupported, UnsupportedProjectedKey))
      else if !lifecycle.Active? && !expired then
        Ok(Audit(normalized, false, expired, None, NotGovernable, NonGovernableLifecycle))
      else
        var tier := TierOf(confidence, expired);
        if normalized.None? then Ok(Audit(None, true, expired, Some(tier), WeakAudit, UnrecognizedSupportedValue))
        else
          match tier
          case Trusted => Ok(Audit(normalized, true, expired, Some(tier), TrustedAudit, TrustedMemoryApplied))
          case Advisory =>
            Ok(Audit(normalized, true, expired, Some(tier), AdvisoryAudit,
                     if expired then ExpiredMemoryDowngraded else LowConfidenceDowngraded))
          case Weak => Ok(Audit(normalized, true, expired, Some(tier), WeakAudit, WeakSignalNotApplied))
  }

  // ---- what the classification guarantees ------------------------------------------------------

  /** The text contains the word, whatever the case and the white space around it. */
  ghost predicate Names(text: string, word: string) {
    exists before, behind :: Fold(Trim(text)) == before + word + behind
  }

  ghost predicate NamesCitywalk(text: string) {
    || Names(text, "citywalk") || Names(text, "city walk")
    || Names(text, "\U{9369}\U{5ea1}\U{7af6}\U{5a55}\U{e0a3}\U{e11e}")
  }

  ghost predicate NamesIndoor(text: string) {
    Names(text, "indoor") || Names(text, "inside") || Names(text, "\U{7039}\U{3085}\U{5534}")
  }

  ghost predicate NamesOutdoor(text: string) {
    || Names(text, "outdoor") || Names(text, "outside")
    || Names(text, "\U{93b4}\U{5cf0}\U{e63b}") || Names(text, "\U{7039}\U{3085}\U{e63b}")
  }

  ghost predicate NamesLighterMeals(text: string) {
    || Names(text, "lighter_options") || Names(text, "lighter") || Names(text, "light food")
    || Names(text, "light meals") || Names(text, "\U{5a13}\U{546e}\U{8d30}")
  }

  lemma {:induction false} NamesExactly(text: string, words: set<string>)
    ensures ContainsAny(Fold(Trim(text)), words) <==> exists word | word in words :: Names(text, word)
  {
    forall word ensures Contains(Fold(Trim(text)), word) <==> Names(text, word) {
      ContainsExactly(Fold(Trim(text)), word);
    }
  }

  lemma {:induction false} NothingNamed(text: string, word: string)
    requires Fold(Trim(text)) == "" && word != ""
    ensures !Names(text, word)
  {
    forall before, behind ensures before + word + behind != Fold(Trim(text)) {
      assert |before + word + behind| > 0;
    }
  }

  /** What a text means: for an activity style the first that it names of city walk, indoor and outdoor. */
  lemma {:induction false} MeansExactly(key: string, text: string)
    ensures NormalizeText(key, text) ==
            if key == "activity_style" && NamesCitywalk(text) then Some("citywalk")
              else if key == "activity_style" && NamesIndoor(text) then Some("indoor")
              else if key == "activity_style" && NamesOutdoor(text) then Some("outdoor")
              else if key == "spouse_lighter_meals" && NamesLighterMeals(text) then Some("lighter_options")
              else None
  {
    NamesExactly(text, CITYWALK_PARTS);
    NamesExactly(text, INDOOR_PARTS);
    NamesExactly(text, OUTDOOR_PARTS);
    NamesExactly(text, LIGHTER_PARTS);
    forall word | word in CITYWALK_PARTS + INDOOR_PARTS + OUTDOOR_PARTS + LIGHTER_PARTS
      ensures Fold(Trim(text)) == "" ==> !Names(text, word)
    {
      if Fold(Trim(text)) == "" {
        NothingNamed(text, word);
      }
    }
  }

  /** A preference that has dimension and meaning; `means` is the meaning of its value, or else that of its text. */
  ghost predicate Means(key: string, value: Json, text: Option<string>, meaning: Option<string>) {
    var byValue := if value.Obj?
      then match Lookup(value.fields, "preference") { case Some(Str(s)) => NormalizeText(key, s) case _ => None }
      else None;
    var byText := if text.Some? then NormalizeText(key, text.value) else None;
    && (byValue.None? || byText.None? || byValue == byText)
    && meaning == if byValue.Some? then byValue else byText
  }

  /** A memory has a meaning exactly when its value and its text do not have two. */
  lemma {:induction false} NormalizedExactly(key: string, value: Json, text: Option<string>)
    ensures forall meaning :: NormalizePreference(key, value, text) == Ok(meaning) <==> Means(key, value, text, meaning)
  {
  }

  /** A supported preference that is active or expired. */
  ghost predicate Governable(memoryType: string, key: string, lifecycle: Lifecycle) {
    && memoryType == "preference" && (key == "activity_style" || key == "spouse_lighter_meals")
    && (lifecycle.Active? || lifecycle.Expired?)
  }

  ghost predicate AtLeast(confidence: Option<real>, bound: real) {
    confidence.Some? && confidence.value >= bound
  }

  /** Trusted while it is active, with a confidence of 0.8 or more. */
  ghost predicate CountsFully(confidence: Option<real>, lifecycle: Lifecycle) {
    lifecycle.Active? && AtLeast(confidence, 0.8)
  }

  /** Advisory while it is active, with a confidence from 0.5 to below 0.8, or expired, with one of 0.8 or more. */
  ghost predicate CountsAsAdvice(confidence: Option<real>, lifecycle: Lifecycle) {
    || (lifecycle.Active? && AtLeast(confidence, 0.5) && !AtLeast(confidence, 0.8))
    || (lifecycle.Expired? && AtLeast(confidence, 0.8))
  }

  /** The audit of any memory whose value and text do not conflict. */
  lemma {:induction false} AuditExactly(
      memoryType: string, key: string, value: Json, text: Option<string>, confidence: Option<real>,
      lifecycle: Lifecycle, meaning: Option<string>)
    requires Means(key, value, text, meaning)
    ensures Classify(memoryType, key, value, text, confidence, lifecycle).Ok?
    ensures var audit := Classify(memoryType, key, value, text, confidence, lifecycle).value;
            var governable := Governable(memoryType, key, lifecycle);
            var supported := Governable(memoryType, key, Active);
            && audit.governable == governable && audit.expired == (supported && lifecycle.Expired?)
            && audit.normalized == (if supported then meaning else None)
            && (audit.tier == Some(Trusted) <==> governable && CountsFully(confidence, lifecycle))
            && (audit.tier == Some(Advisory) <==> governable && CountsAsAdvice(confidence, lifecycle))
            && (audit.tier.None? <==> !governable)
            && (audit.status.TrustedAudit? <==> governable && meaning.Some? && CountsFully(confidence, lifecycle))
            && (audit.status.AdvisoryAudit? <==> governable && meaning.Some? && CountsAsAdvice(confidence, lifecycle))
            && (audit.status.Unsupported? <==> !supported)
            && (audit.status.NotGovernable? <==> supported && !governable)
            && audit.reason == (match audit.status
                                case TrustedAudit => TrustedMemoryApplied
                                case AdvisoryAudit =>
                                  if lifecycle.Expired? then ExpiredMemoryDowngraded else LowConfidenceDowngraded
                                case WeakAudit =>
                                  if meaning.None? then UnrecognizedSupportedValue else WeakSignalNotApplied
                                case Unsupported => UnsupportedProjectedKey
                                case NotGovernable => NonGovernableLifecycle)
  {
    NormalizedExactly(key, value, text);
  }

  /** Only conflicting meanings raise. */
  lemma {:induction false} ConflictExactly(
      memoryType: string, key: string, value: Json, text: Option<string>, confidence: Option<real>,
      lifecycle: Lifecycle)
    ensures Classify(memoryType, key, value, text, confidence, lifecycle).Err? <==>
            forall meaning :: !Means(key, value, text, meaning)
  {
    NormalizedExactly(key, value, text);
    if Classify(memoryType, key, value, text, confidence, lifecycle).Ok? {
      assert Means(key, value, text, NormalizePreference(key, value, text).value);
    }
  }

  /** A time that is reached ends an active memory; every other status is its own lifecycle. */
  lemma {:induction false} LifecycleExactly(status: Lifecycle, expiresAt: Option<Timestamp>, now: int)
    ensures var reached := expiresAt.Some? && expiresAt.value.at <= now;
            var lifecycle := ResolveLifecycle(status, expiresAt, now);
            && (lifecycle.Active? <==> status.Active? && !reached)
            && (lifecycle.Expired? <==> status.Expired? || (status.Active? && reached))
            && (lifecycle != status ==> status.Active? && lifecycle.Expired?)
  {
  }

  /** The texts by which a status is stored. */
  ghost predicate StoredAs(text: string, status: Lifecycle) {
    match status
    case Active => text == "active"
    case Expired => text == "expired"
    case Disabled => text == "disabled"
    case Ignored => text == "ignored" || text == "archived"
    case Candidate => text == "candidate"
  }

  lemma {:induction false} StatusExactly(text: string, status: Lifecycle)
    ensures NormalizeStatus(text) == Some(status) <==> StoredAs(text, status)
  {
    assert |"active"| == 6 && |"expired"| == 7 && |"disabled"| == 8 && |"ignored"| == 7;
    assert |"archived"| == 8 && |"candidate"| == 9;
    assert "expired"[0] == 'e' && "ignored"[0] == 'i' && "disabled"[0] == 'd' && "archived"[0] == 'a';
  }

  /** More confidence never lowers the tier, and expiry never raises it. */
  lemma {:induction false} TierIsMonotone(a: real, b: real, expired: bool)
    requires a <= b
    ensures Rank(TierOf(Some(a), expired)) <= Rank(TierOf(Some(b), expired))
    ensures Rank(TierOf(Some(b), true)) <= Rank(TierOf(Some(b), false))
  {
  }

  ghost function Rank(tier: Tier): nat {
    match tier
    case Weak => 0
    case Advisory => 1
    case Trusted => 2
  }

  lemma {:induction false} OccursInItself(text: string)
    ensures Contains(text, text)
  {
    assert OccursAt(text, text, 0);
  }

  lemma {:induction false} StartsNowhere(text: string, part: string)
    requires part != "" && part[0] !in text
    ensures !Contains(text, part)
  {
    if i :| 0 <= i <= |text| - |part| && OccursAt(text, part, i) {
      FirstCharOccurs(text, part, i);
    }
  }

  lemma {:induction false} FirstCharOccurs(text: string, part: string, i: int)
    requires part != "" && OccursAt(text, part, i)
    ensures part[0] in text
  {
    assert text[i..i + |part|][0] == text[i];
  }

  /** The preferences that normalisation yields are its fixed points. */
  lemma {:induction false} NormalFormIsFixed(key: string, text: string)
    requires NormalizeText(key, text).Some?
    ensures NormalizeText(key, NormalizeText(key, text).value) == NormalizeText(key, text)
  {
    var normal := NormalizeText(key, text).value;
    if normal == "citywalk" {
      CitywalkIsFixed();
    } else if normal == "indoor" {
      IndoorIsFixed();
    } else if normal == "outdoor" {
      OutdoorIsFixed();
    } else {
      LighterIsFixed();
    }
  }

  lemma {:induction false} CitywalkIsFixed()
    ensures NormalizeText("activity_style", "citywalk") == Some("citywalk")
  {
    assert Fold(Trim("citywalk")) == "citywalk";
    OccursInItself("citywalk");
  }

  lemma {:induction false} IndoorIsFixed()
    ensures NormalizeText("activity_style", "indoor") == Some("indoor")
  {
    assert Fold(Trim("indoor")) == "indoor";
    OccursInItself("indoor");
    forall part | part in CITYWALK_PARTS ensures !Contains("indoor", part) {
      StartsNowhere("indoor", part);
    }
  }

  lemma {:induction false} OutdoorIsFixed()
    ensures NormalizeText("activity_style", "outdoor") == Some("outdoor")
  {
    assert Fold(Trim("outdoor")) == "outdoor";
    OccursInItself("outdoor");
    forall part | part in CITYWALK_PARTS + INDOOR_PARTS ensures !Contains("outdoor", part) {
      StartsNowhere("outdoor", part);
    }
  }

  lemma {:induction false} LighterIsFixed()
    ensures NormalizeText("spouse_lighter_meals", "lighter_options") == Some("lighter_options")
  {
    assert Fold(Trim("lighter_options")) == "lighter_options";
    OccursInItself("lighter_options");
  }
}
