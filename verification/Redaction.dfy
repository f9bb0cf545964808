/** Redaction of stored JSON: trace sanitising, benchmark report filtering and observability previews. */
module Redaction {
  import opened Wrappers
  import opened Strings
  import opened JsonTrees
  import opened Counting

  const REDACTED := Str("[REDACTED]")

  const SENSITIVE_PARTS: set<string> := {
    "api_key", "token", "secret", "password", "authorization",
    "prompt", "debug_trace", "traceback", "stack_trace", "stack trace"
  }
  const FORBIDDEN_PARTS: set<string> := SENSITIVE_PARTS + {"action_id", "tool_event_id"}
  const SAFE_KEYS: set<string> := {"prompt_version"}
  const DROP_KEYS: set<string> := {
    "prompt_tokens", "completion_tokens", "total_tokens",
    "prompt_tokens_details", "completion_tokens_details"
  }
  const PREVIEW_FORBIDDEN_KEYS: set<string> := {
    "action_id", "tool_event_id", "event_id", "idempotency_key", "confirmation_id"
  }

  predicate IsDropKey(key: string) {
    Fold(key) in DROP_KEYS
  }

  predicate IsSensitiveKey(key: string) {
    Fold(key) !in SAFE_KEYS && ContainsAny(Fold(key), SENSITIVE_PARTS)
  }

  predicate IsForbiddenKey(key: string) {
    Fold(key) !in SAFE_KEYS && ContainsAny(Fold(key), FORBIDDEN_PARTS)
  }

  predicate IsIdentifierKey(key: string) {
    Fold(key) == "id" || EndsWith(Fold(key), "_id")
  }

  predicate IsForbiddenPreviewKey(key: string) {
    Fold(key) in PREVIEW_FORBIDDEN_KEYS
  }

  predicate NoKey(key: string) {
    false
  }

  /** What every pass means: fields with a `drop` key go, those with a `mask` key keep only their name. */
  ghost function Rewrite(value: Json, drop: string -> bool, mask: string -> bool): Json {
    match value
    case Obj(fields) => Obj(RewriteFields(fields, drop, mask))
    case Arr(items) => Arr(seq(|items|, i requires 0 <= i < |items| => Rewrite(items[i], drop, mask)))
    case _ => value
  }

  ghost function RewriteFields(fields: seq<Field>, drop: string -> bool, mask: string -> bool): seq<Field> {
    if fields == [] then []
    else
      var last := |fields| - 1;
      RewriteFields(fields[..last], drop, mask) + RewriteField(fields[last], drop, mask)
  }

  ghost function RewriteField(field: Field, drop: string -> bool, mask: string -> bool): seq<Field> {
    if drop(field.name) then []
    else if mask(field.name) then [Field(field.name, REDACTED)]
    else [Field(field.name, Rewrite(field.value, drop, mask))]
  }

  // ---- the passes ----------------------------------------------------------------------------

  /** `sanitize_trace_payload`: token counters go, sensitive values are masked. */
  method SanitizeTracePayload(value: Json) returns (sanitized: Json)
    ensures sanitized == Rewrite(value, IsDropKey, IsSensitiveKey)
    decreases value
  {
    match value
    case Obj(fields) =>
      var kept: seq<Field> := [];
      for i := 0 to |fields|
        invariant kept == RewriteFields(fields[..i], IsDropKey, IsSensitiveKey)
      {
        assert fields[..i + 1][..i] == fields[..i];
        var field := fields[i];
        if !IsDropKey(field.name) {
          if IsSensitiveKey(field.name) {
            kept := kept + [Field(field.name, REDACTED)];
          } else {
            var child := SanitizeTracePayload(field.value);
            kept := kept + [Field(field.name, child)];
          }
        }
      }
      assert fields[..|fields|] == fields;
      sanitized := Obj(kept);
    case Arr(items) =>
      var kept: seq<Json> := [];
      for i := 0 to |items|
        invariant |kept| == i
        invariant forall j | 0 <= j < i :: kept[j] == Rewrite(items[j], IsDropKey, IsSensitiveKey)
      {
        var child := SanitizeTracePayload(items[i]);
        kept := kept + [child];
      }
      sanitized := Arr(kept);
    case _ =>
      sanitized := value;
  }

  /** `_redact_identifier_keys`: identifier values are masked. */
  method RedactIdentifierKeys(value: Json) returns (redacted: Json)
    ensures redacted == Rewrite(value, NoKey, IsIdentifierKey)
    decreases value
  {
    match value
    case Obj(fields) =>
      var kept: seq<Field> := [];
      for i := 0 to |fields|
        invariant kept == RewriteFields(fields[..i], NoKey, IsIdentifierKey)
      {
        assert fields[..i + 1][..i] == fields[..i];
        var field := fields[i];
        if IsIdentifierKey(field.name) {
          kept := kept + [Field(field.name, REDACTED)];
        } else {
          var child := RedactIdentifierKeys(field.value);
          kept := kept + [Field(field.name, child)];
        }
      }
      assert fields[..|fields|] == fields;
      redacted := Obj(kept);
    case Arr(items) =>
      var kept: seq<Json> := [];
      for i := 0 to |items|
        invariant |kept| == i
        invariant forall j | 0 <= j < i :: kept[j] == Rewrite(items[j], NoKey, IsIdentifierKey)
      {
        var child := RedactIdentifierKeys(items[i]);
        kept := kept + [child];
      }
      redacted := Arr(kept);
    case _ =>
      redacted := value;
  }

  /** `_drop_forbidden_preview_keys`: execution handles go. */
  method DropForbiddenPreviewKeys(value: Json) returns (preview: Json)
    ensures preview == Rewrite(value, IsForbiddenPreviewKey, NoKey)
    decreases value
  {
    match value
    case Obj(fields) =>
      var kept: seq<Field> := [];
      for i := 0 to |fields|
        invariant kept == RewriteFields(fields[..i], IsForbiddenPreviewKey, NoKey)
      {
        assert fields[..i + 1][..i] == fields[..i];
        var field := fields[i];
        if !IsForbiddenPreviewKey(field.name) {
          var child := DropForbiddenPreviewKeys(field.value);
          kept := kept + [Field(field.name, child)];
        }
      }
      assert fields[..|fields|] == fields;
      preview := Obj(kept);
    case Arr(items) =>
      var kept: seq<Json> := [];
      for i := 0 to |items|
        invariant |kept| == i
        invariant forall j | 0 <= j < i :: kept[j] == Rewrite(items[j], IsForbiddenPreviewKey, NoKey)
      {
        var child := DropForbiddenPreviewKeys(items[i]);
        kept := kept + [child];
      }
      preview := Arr(kept);
    case _ =>
      preview := value;
  }

  /** `_drop_forbidden_keys` of the benchmark reports. */
  function DropForbiddenKeys(value: Json): (dropped: Json)
    ensures dropped == Rewrite(value, IsForbiddenKey, NoKey)
  {
    match value
    case Obj(fields) => Obj(DropForbiddenFields(fields))
    case Arr(items) =>
      var kept := seq(|items|, i requires 0 <= i < |items| => DropForbiddenKeys(items[i]));
      assert Rewrite(value, IsForbiddenKey, NoKey).items == kept;
      Arr(kept)
    case _ => value
  }

  function DropForbiddenFields(fields: seq<Field>): (kept: seq<Field>)
    ensures kept == RewriteFields(fields, IsForbiddenKey, NoKey)
  {
    if fields == [] then []
    else
      var last := |fields| - 1;
      var before := DropForbiddenFields(fields[..last]);
      if IsForbiddenKey(fields[last].name) then before
      else before + [Field(fields[last].name, DropForbiddenKeys(fields[last].value))]
  }

  // ---- laws ----------------------------------------------------------------------------------

  /** Two passes fuse into the one that drops and masks what either does. */
  lemma {:induction false} Fusion(
    value: Json,
    drop1: string -> bool, mask1: string -> bool,
    drop2: string -> bool, mask2: string -> bool,
    drop: string -> bool, mask: string -> bool)
    requires forall key :: drop(key) <==> drop1(key) || drop2(key)
    requires forall key :: !drop(key) ==> (mask(key) <==> mask1(key) || mask2(key))
    ensures Rewrite(Rewrite(value, drop1, mask1), drop2, mask2) == Rewrite(value, drop, mask)
  {
    match value
    case Obj(fields) => FusionFields(fields, drop1, mask1, drop2, mask2, drop, mask);
    case Arr(items) =>
      forall i | 0 <= i < |items| {
        Fusion(items[i], drop1, mask1, drop2, mask2, drop, mask);
      }
    case _ =>
  }

  lemma {:induction false} FusionFields(
    fields: seq<Field>,
    drop1: string -> bool, mask1: string -> bool,
    drop2: string -> bool, mask2: string -> bool,
    drop: string -> bool, mask: string -> bool)
    requires forall key :: drop(key) <==> drop1(key) || drop2(key)
    requires forall key :: !drop(key) ==> (mask(key) <==> mask1(key) || mask2(key))
    ensures RewriteFields(RewriteFields(fields, drop1, mask1), drop2, mask2) == RewriteFields(fields, drop, mask)
  {
    if fields != [] {
      var last := |fields| - 1;
      FusionFields(fields[..last], drop1, mask1, drop2, mask2, drop, mask);
      Fusion(fields[last].value, drop1, mask1, drop2, mask2, drop, mask);
      FusionField(fields[last], drop1, mask1, drop2, mask2, drop, mask);
      RewriteFieldsAppend(RewriteFields(fields[..last], drop1, mask1), RewriteField(fields[last], drop1, mask1), drop2,
                          mask2);
    }
  }

  lemma {:induction false} FusionField(
    field: Field,
    drop1: string -> bool, mask1: string -> bool,
    drop2: string -> bool, mask2: string -> bool,
    drop: string -> bool, mask: string -> bool)
    requires drop(field.name) <==> drop1(field.name) || drop2(field.name)
    requires !drop(field.name) ==> (mask(field.name) <==> mask1(field.name) || mask2(field.name))
    requires Rewrite(Rewrite(field.value, drop1, mask1), drop2, mask2) == Rewrite(field.value, drop, mask)
    ensures RewriteFields(RewriteField(field, drop1, mask1), drop2, mask2) == RewriteField(field, drop, mask)
  {
    var here := RewriteField(field, drop1, mask1);
    if here != [] {
      assert here[..0] == [];
      assert RewriteFields(here, drop2, mask2) == RewriteField(here[0], drop2, mask2);
    }
  }

  lemma {:induction false} RewriteFieldsAppend(before: seq<Field>, here: seq<Field>, drop: string -> bool,
      mask: string -> bool)
    requires |here| <= 1
    ensures RewriteFields(before + here, drop, mask)
            == RewriteFields(before, drop, mask) + RewriteFields(here, drop, mask)
  {
    if here == [] {
      assert before + here == before;
    } else {
      assert (before + here)[..|before|] == before && here[..0] == [];
    }
  }

  /** Sanitising a sanitised payload changes nothing. */
  lemma {:induction false} SanitizeIdempotent(value: Json)
    ensures Rewrite(Rewrite(value, IsDropKey, IsSensitiveKey), IsDropKey, IsSensitiveKey)
         == Rewrite(value, IsDropKey, IsSensitiveKey)
  {
    Fusion(value, IsDropKey, IsSensitiveKey, IsDropKey, IsSensitiveKey, IsDropKey, IsSensitiveKey);
  }

  /** Everything sanitising touches is forbidden in a report anyway. */
  lemma {:induction false} SanitizedKeysAreForbidden(key: string)
    requires IsDropKey(key) || IsSensitiveKey(key)
    ensures IsForbiddenKey(key)
  {
    var folded := Fold(key);
    if IsDropKey(key) {
      var token := "token";
      assert token in FORBIDDEN_PARTS;
      assert OccursAt("prompt_tokens", token, 7);
      assert OccursAt("completion_tokens", token, 11);
      assert OccursAt("total_tokens", token, 6);
      assert OccursAt("prompt_tokens_details", token, 7);
      assert OccursAt("completion_tokens_details", token, 11);
      assert Contains(folded, token);
    } else {
      var part :| part in SENSITIVE_PARTS && Contains(folded, part);
      assert part in FORBIDDEN_PARTS;
    }
  }

  /** A report that was sanitised first holds exactly what dropping alone would have kept. */
  lemma {:induction false} DropAfterSanitizeIsDrop(value: Json)
    ensures DropForbiddenKeys(Rewrite(value, IsDropKey, IsSensitiveKey)) == DropForbiddenKeys(value)
  {
    forall key ensures IsForbiddenKey(key) <==> IsDropKey(key) || IsForbiddenKey(key) {
      if IsDropKey(key) { SanitizedKeysAreForbidden(key); }
    }
    forall key | !IsForbiddenKey(key) ensures NoKey(key) <==> IsSensitiveKey(key) || NoKey(key) {
      if IsSensitiveKey(key) { SanitizedKeysAreForbidden(key); }
    }
    Fusion(value, IsDropKey, IsSensitiveKey, IsForbiddenKey, NoKey, IsForbiddenKey, NoKey);
  }

  /** Masking identifiers and dropping execution handles can be done in either order. */
  lemma {:induction false} IdentifierRedactionCommutes(value: Json)
    ensures Rewrite(Rewrite(value, NoKey, IsIdentifierKey), IsForbiddenPreviewKey, NoKey)
         == Rewrite(Rewrite(value, IsForbiddenPreviewKey, NoKey), NoKey, IsIdentifierKey)
  {
    Fusion(value, NoKey, IsIdentifierKey, IsForbiddenPreviewKey, NoKey, IsForbiddenPreviewKey, IsIdentifierKey);
    Fusion(value, IsForbiddenPreviewKey, NoKey, NoKey, IsIdentifierKey, IsForbiddenPreviewKey, IsIdentifierKey);
  }

  /** No dropped key survives at any depth. */
  lemma {:induction false} NoDroppedKeyRemains(value: Json, drop: string -> bool, mask: string -> bool)
    ensures !HasKey(Rewrite(value, drop, mask), drop)
  {
    var out := Rewrite(value, drop, mask);
    if HasKey(out, drop) {
      KeyInside(out, drop);
      match value
      case Obj(fields) =>
        NoDroppedKeyInFields(fields, drop, mask);
      case Arr(items) =>
        var k :| 0 <= k < |out.items| && HasKey(out.items[k], drop);
        NoDroppedKeyRemains(items[k], drop, mask);
      case _ =>
    }
  }

  lemma {:induction false} NoDroppedKeyInFields(fields: seq<Field>, drop: string -> bool, mask: string -> bool)
    ensures forall field | field in RewriteFields(fields, drop, mask) ::
              !drop(field.name) && !HasKey(field.value, drop)
  {
    if fields != [] {
      var last := |fields| - 1;
      NoDroppedKeyInFields(fields[..last], drop, mask);
      NoDroppedKeyRemains(fields[last].value, drop, mask);
      if HasKey(REDACTED, drop) {
        KeyInside(REDACTED, drop);
      }
    }
  }

  // ---- what is kept: paths named by keys and list positions ------------------------------------

  datatype Step = Key(name: string) | Index(i: nat)

  /** Following the steps from the document reaches `target`. */
  ghost predicate Leads(document: Json, steps: seq<Step>, target: Json) {
    if steps == [] then document == target
    else
      match steps[0]
      case Key(name) => exists value :: Under(document, name, value) && Leads(value, steps[1..], target)
      case Index(i) =>
        document.Arr? && i < |document.items| && Leads(document.items[i], steps[1..], target)
  }

  predicate Under(document: Json, name: string, value: Json) {
    document.Obj? && Field(name, value) in document.fields
  }

  ghost predicate Untouched(steps: seq<Step>, drop: string -> bool, mask: string -> bool) {
    forall step | step in steps && step.Key? :: !drop(step.name) && !mask(step.name)
  }

  /** A kept key holds the rewritten values it held before, or the mask. */
  lemma {:induction false} FieldKept(fields: seq<Field>, name: string, value: Json, drop: string -> bool,
      mask: string -> bool)
    requires !drop(name)
    ensures mask(name) ==>
      (Field(name, value) in RewriteFields(fields, drop, mask) <==>
       value == REDACTED && exists before :: Field(name, before) in fields)
    ensures !mask(name) ==>
      (Field(name, value) in RewriteFields(fields, drop, mask) <==>
       exists before :: Field(name, before) in fields && value == Rewrite(before, drop, mask))
  {
    if fields != [] {
      var last := |fields| - 1;
      FieldKept(fields[..last], name, value, drop, mask);
      assert fields == fields[..last] + [fields[last]];
      var kept := Field(name, value);
      assert kept in RewriteFields(fields, drop, mask) <==>
             kept in RewriteFields(fields[..last], drop, mask) || kept in RewriteField(fields[last], drop, mask);
    }
  }

  /** A path of untouched keys leads, after the pass, exactly to the rewritten values it led to before. */
  lemma {:induction false} KeepsEveryOtherPath(document: Json, steps: seq<Step>, target: Json, drop: string -> bool,
      mask: string -> bool)
    requires Untouched(steps, drop, mask)
    ensures Leads(Rewrite(document, drop, mask), steps, target) <==>
            exists before :: Leads(document, steps, before) && target == Rewrite(before, drop, mask)
    decreases |steps|, 1
  {
    if steps == [] {
      assert Leads(document, steps, document);
    } else if steps[0].Index? {
      if document.Arr? && steps[0].i < |document.items| {
        KeepsEveryOtherPath(document.items[steps[0].i], steps[1..], target, drop, mask);
      }
    } else {
      if Leads(Rewrite(document, drop, mask), steps, target) {
        PathComesFromBefore(document, steps, target, drop, mask);
      }
      if before :| Leads(document, steps, before) && target == Rewrite(before, drop, mask) {
        PathIsKept(document, steps, before, drop, mask);
      }
    }
  }

  lemma {:induction false} PathComesFromBefore(document: Json, steps: seq<Step>, target: Json, drop: string -> bool,
      mask: string -> bool)
    requires Untouched(steps, drop, mask) && steps != [] && steps[0].Key?
    requires Leads(Rewrite(document, drop, mask), steps, target)
    ensures exists before :: Leads(document, steps, before) && target == Rewrite(before, drop, mask)
    decreases |steps|, 0
  {
    var name := steps[0].name;
    var kept :| Under(Rewrite(document, drop, mask), name, kept) && Leads(kept, steps[1..], target);
    FieldKept(document.fields, name, kept, drop, mask);
    assert steps[0] in steps;
    var child :| Field(name, child) in document.fields && kept == Rewrite(child, drop, mask);
    KeepsEveryOtherPath(child, steps[1..], target, drop, mask);
    var before :| Leads(child, steps[1..], before) && target == Rewrite(before, drop, mask);
    assert Under(document, name, child);
    assert Leads(document, steps, before);
  }

  lemma {:induction false} PathIsKept(document: Json, steps: seq<Step>, before: Json, drop: string -> bool,
      mask: string -> bool)
    requires Untouched(steps, drop, mask) && steps != [] && steps[0].Key?
    requires Leads(document, steps, before)
    ensures Leads(Rewrite(document, drop, mask), steps, Rewrite(before, drop, mask))
    decreases |steps|, 0
  {
    var name := steps[0].name;
    var child :| Under(document, name, child) && Leads(child, steps[1..], before);
    var kept := Rewrite(child, drop, mask);
    assert steps[0] in steps;
    FieldKept(document.fields, name, kept, drop, mask);
    KeepsEveryOtherPath(child, steps[1..], Rewrite(before, drop, mask), drop, mask);
    assert exists b :: Leads(child, steps[1..], b) && Rewrite(before, drop, mask) == Rewrite(b, drop, mask);
    assert Leads(kept, steps[1..], Rewrite(before, drop, mask));
    assert Under(Rewrite(document, drop, mask), name, kept);
  }

  ghost function NamesOf(fields: seq<Field>): seq<string> {
    seq(|fields|, i requires 0 <= i < |fields| => fields[i].name)
  }

  ghost function IsKept(drop: string -> bool): string -> bool {
    (name: string) => !drop(name)
  }

  /** The keys that are not dropped stay in their order. */
  lemma {:induction false} KeysStayInOrder(fields: seq<Field>, drop: string -> bool, mask: string -> bool)
    returns (at: seq<nat>)
    ensures KeptAt(NamesOf(fields), IsKept(drop), NamesOf(RewriteFields(fields, drop, mask)), at)
  {
    at := [];
    if fields != [] {
      var last := |fields| - 1;
      var before := RewriteFields(fields[..last], drop, mask);
      at := KeysStayInOrder(fields[..last], drop, mask);
      OneMoreKept(NamesOf(fields[..last]), fields[last].name, IsKept(drop), NamesOf(before), at);
      assert NamesOf(fields) == NamesOf(fields[..last]) + [fields[last].name];
      if drop(fields[last].name) {
        assert before + [] == before;
      } else {
        assert NamesOf(RewriteFields(fields, drop, mask)) == NamesOf(before) + [fields[last].name];
        at := at + [last];
      }
    }
  }

  // ---- which keys ------------------------------------------------------------------------------

  /** The key contains the word, in whatever case. */
  ghost predicate Mentions(key: string, word: string) {
    exists before, behind :: Fold(key) == before + word + behind
  }

  ghost predicate MentionsSecret(key: string) {
    || Mentions(key, "api_key") || Mentions(key, "token") || Mentions(key, "secret") || Mentions(key, "password")
    || Mentions(key, "authorization") || Mentions(key, "prompt") || Mentions(key, "debug_trace")
    || Mentions(key, "traceback") || Mentions(key, "stack_trace") || Mentions(key, "stack trace")
  }

  lemma {:induction false} MentionsExactly(key: string, words: set<string>)
    ensures ContainsAny(Fold(key), words) <==> exists word | word in words :: Mentions(key, word)
  {
    forall word ensures Contains(Fold(key), word) <==> Mentions(key, word) {
      ContainsExactly(Fold(key), word);
    }
  }

  /** Values that are masked in traces: those under a key that mentions a secret, but for the version of a prompt. */
  lemma {:induction false} SensitiveExactly(key: string)
    ensures IsSensitiveKey(key) <==> Fold(key) != "prompt_version" && MentionsSecret(key)
  {
    MentionsExactly(key, SENSITIVE_PARTS);
  }

  /** Keys that reports leave out: the same, and those that mention an action or tool event. */
  lemma {:induction false} ForbiddenExactly(key: string)
    ensures IsForbiddenKey(key) <==>
            && Fold(key) != "prompt_version"
            && (MentionsSecret(key) || Mentions(key, "action_id") || Mentions(key, "tool_event_id"))
  {
    MentionsExactly(key, FORBIDDEN_PARTS);
  }

  /** Keys that traces leave out: the counters of tokens. */
  lemma {:induction false} DroppedExactly(key: string)
    ensures IsDropKey(key) <==>
            || Fold(key) == "prompt_tokens" || Fold(key) == "completion_tokens" || Fold(key) == "total_tokens"
            || Fold(key) == "prompt_tokens_details" || Fold(key) == "completion_tokens_details"
  {
  }

  /** Identifiers: the key is "id", or ends in "_id". */
  lemma {:induction false} IdentifierExactly(key: string)
    ensures IsIdentifierKey(key) <==> Fold(key) == "id" || exists before :: Fold(key) == before + "_id"
  {
    if IsIdentifierKey(key) && Fold(key) != "id" {
      assert Fold(key) == Fold(key)[..|Fold(key)| - 3] + "_id";
    }
    if before :| Fold(key) == before + "_id" {
      assert Fold(key)[|Fold(key)| - 3..] == "_id";
    }
  }

  /** Handles by which an execution could be taken up. */
  lemma {:induction false} HandleExactly(key: string)
    ensures IsForbiddenPreviewKey(key) <==>
            || Fold(key) == "action_id" || Fold(key) == "tool_event_id" || Fold(key) == "event_id"
            || Fold(key) == "idempotency_key" || Fold(key) == "confirmation_id"
  {
  }

  /** What is left under a masked key tells nothing of the value. */
  lemma {:induction false} MaskedAlike(field: Field, other: Json, drop: string -> bool, mask: string -> bool)
    requires !drop(field.name) && mask(field.name)
    ensures RewriteField(field, drop, mask) == [Field(field.name, Str("[REDACTED]"))]
            == RewriteField(field.(value := other), drop, mask)
  {
  }

  ghost predicate IsPreviewDropKey(key: string) {
    IsDropKey(key) || IsForbiddenPreviewKey(key)
  }

  ghost predicate IsPreviewMaskKey(key: string) {
    IsSensitiveKey(key) || IsIdentifierKey(key)
  }

  /** A preview leaves out counters of tokens and handles, and masks secrets and identifiers. */
  lemma {:induction false} PreviewKeysExactly(key: string)
    ensures IsPreviewDropKey(key) <==>
            || Fold(key) == "prompt_tokens" || Fold(key) == "completion_tokens" || Fold(key) == "total_tokens"
            || Fold(key) == "prompt_tokens_details" || Fold(key) == "completion_tokens_details"
            || Fold(key) == "action_id" || Fold(key) == "tool_event_id" || Fold(key) == "event_id"
            || Fold(key) == "idempotency_key" || Fold(key) == "confirmation_id"
    ensures IsPreviewMaskKey(key) <==>
            || (Fold(key) != "prompt_version" && MentionsSecret(key))
            || Fold(key) == "id" || exists before :: Fold(key) == before + "_id"
  {
    SensitiveExactly(key);
    DroppedExactly(key);
    IdentifierExactly(key);
    HandleExactly(key);
  }

  /** What is shown of a value: one rewrite of it, inside an object. */
  ghost predicate IsPreviewOf(preview: Json, value: Json) {
    var shown := Rewrite(value, IsPreviewDropKey, IsPreviewMaskKey);
    preview == if shown.Obj? then shown else Obj([Field("value", shown)])
  }

  /**
   * `_preview_payload`: there is a preview of anything but None; its three passes amount to one, and no execution
   * handle is left at any depth.
   */
  method PreviewPayload(value: Json) returns (preview: Option<Json>)
    ensures preview.None? <==> value.Null?
    ensures preview.Some? ==> !HasKey(preview.value, IsForbiddenPreviewKey) && IsPreviewOf(preview.value, value)
  {
    if value.Null? {
      return None;
    }
    var sanitized := SanitizeTracePayload(value);
    var redacted := RedactIdentifierKeys(sanitized);
    var shown := DropForbiddenPreviewKeys(redacted);
    NoDroppedKeyRemains(redacted, IsForbiddenPreviewKey, NoKey);
    Fusion(value, IsDropKey, IsSensitiveKey, NoKey, IsIdentifierKey, IsDropKey, IsPreviewMaskKey);
    Fusion(value, IsDropKey, IsPreviewMaskKey, IsForbiddenPreviewKey, NoKey, IsPreviewDropKey, IsPreviewMaskKey);
    if shown.Obj? {
      preview := Some(shown);
    } else {
      preview := Some(Obj([Field("value", shown)]));
      WrapperKeyIsAllowed(shown);
    }
  }

  lemma {:induction false} WrapperKeyIsAllowed(shown: Json)
    requires !HasKey(shown, IsForbiddenPreviewKey)
    ensures !HasKey(Obj([Field("value", shown)]), IsForbiddenPreviewKey)
  {
    var preview := Obj([Field("value", shown)]);
    assert Fold("value")[0] == 'v';
    if HasKey(preview, IsForbiddenPreviewKey) {
      KeyInside(preview, IsForbiddenPreviewKey);
    }
  }
}
