/** The intent of a conversation: every turn is parsed, and later turns override what they give a signal for. */
module Conversation {
  import opened Wrappers
  import opened Strings
  import opened Counting

  datatype Style = Citywalk | Indoor | Outdoor

  /** What the parser's keyword tests and patterns found in a turn; `ages` holds the matches of each age pattern. */
  datatype Hits = Hits(
    family: bool, child: bool, spouse: bool, friend: bool, solo: bool, ages: seq<seq<nat>>,
    afternoon: bool, fewHours: bool, near: bool, lighter: bool, style: Option<Style>)

  datatype Turn = Turn(text: string, hits: Hits)

  datatype Scenario = Family | Friends | Solo | Unknown

  datatype Participants = Participants(adults: nat, childrenAges: seq<nat>)

  datatype TimeWindow = TimeWindow(
    name: Option<string>, startAt: Option<int>, endAt: Option<int>, durationMin: Option<nat>, durationMax: Option<nat>)

  datatype Preference = ChildFriendly | StyleOf(style: Style)

  datatype Intent = Intent(
    rawText: string, scenario: Scenario, participants: Participants, childFriendly: bool, window: TimeWindow,
    maxDistance: Option<nat>, dining: seq<string>, activity: seq<Preference>)

  datatype Signals = Signals(scenario: bool, window: bool, distance: bool, dining: bool, activity: bool)

  datatype Parsed = Parsed(intent: Intent, signals: Signals)

  // ---- one turn --------------------------------------------------------------------------------------

  function AddAge(ages: seq<nat>, age: nat): seq<nat> {
    if age in ages then ages else ages + [age]
  }

  function AddAges(ages: seq<nat>, matches: seq<nat>): seq<nat> {
    if matches == [] then ages else AddAge(AddAges(ages, matches[..|matches| - 1]), matches[|matches| - 1])
  }

  function ChildAges(found: seq<seq<nat>>): seq<nat> {
    if found == [] then [] else AddAges(ChildAges(found[..|found| - 1]), found[|found| - 1])
  }

  /** `_parse_child_ages`, over the matches of its patterns. */
  method ParseChildAges(found: seq<seq<nat>>) returns (ages: seq<nat>)
    ensures ages == ChildAges(found)
  {
    ages := [];
    for p := 0 to |found|
      invariant ages == ChildAges(found[..p])
    {
      assert found[..p + 1][..p] == found[..p];
      ghost var before := ages;
      for m := 0 to |found[p]|
        invariant ages == AddAges(before, found[p][..m])
      {
        assert found[p][..m + 1][..m] == found[p][..m];
        if found[p][m] !in ages {
          ages := ages + [found[p][m]];
        }
      }
      assert found[p][..|found[p]|] == found[p];
    }
    assert found[..|found|] == found;
  }

  function ScenarioOf(h: Hits): Scenario {
    if h.family then Family else if h.friend then Friends else if h.solo then Solo else Unknown
  }

  /** Without a reference time, as conversations are parsed, the window has no start and no end. */
  function WindowOf(h: Hits): TimeWindow {
    TimeWindow(if h.afternoon then Some("this_afternoon") else None, None, None,
               if h.fewHours then Some(4) else None, if h.fewHours then Some(6) else None)
  }

  function FriendlyOf(h: Hits): bool {
    h.family || h.child || ChildAges(h.ages) != []
  }

  function ActivityOf(h: Hits): seq<Preference> {
    (if FriendlyOf(h) then [ChildFriendly] else []) + (if h.style.Some? then [StyleOf(h.style.value)] else [])
  }

  predicate HasWindow(w: TimeWindow) {
    w.name.Some? || w.startAt.Some? || w.endAt.Some? || w.durationMin.Some? || w.durationMax.Some?
  }

  function Parse(t: Turn): Parsed {
    var h := t.hits;
    var distance := if h.near then Some(8) else None;
    var dining := if h.lighter then ["lighter_options"] else [];
    Parsed(
      Intent(Trim(t.text), ScenarioOf(h), Participants(if h.spouse then 2 else 1, ChildAges(h.ages)), FriendlyOf(h),
             WindowOf(h),
             distance, dining, ActivityOf(h)),
      Signals(h.family || h.child || h.spouse || h.friend || h.solo || ChildAges(h.ages) != [],
              HasWindow(WindowOf(h)), distance.Some?, dining != [], h.style.Some?))
  }

  /** `parse_with_signals`. */
  method ParseWithSignals(t: Turn) returns (parsed: Parsed)
    ensures parsed == Parse(t)
  {
    var h := t.hits;
    var ages := ParseChildAges(h.ages);
    var friendly := h.family || h.child || ages != [];
    var activity: seq<Preference> := if friendly then [ChildFriendly] else [];
    if h.style.Some? && StyleOf(h.style.value) !in activity {
      activity := activity + [StyleOf(h.style.value)];
    }
    var window := WindowOf(h);
    var distance := if h.near then Some(8) else None;
    var dining := if h.lighter then ["lighter_options"] else [];
    parsed := Parsed(
      Intent(Trim(t.text), ScenarioOf(h), Participants(if h.spouse then 2 else 1, ages), friendly, window, distance,
             dining, activity),
      Signals(h.family || h.child || h.spouse || h.friend || h.solo || ages != [], HasWindow(window), distance.Some?,
              dining != [], h.style.Some?));
  }

  // ---- merging turns -----------------------------------------------------------------------------------

  predicate IsBlank(t: Turn) {
    Trim(t.text) == ""
  }

  function NonBlank(turns: seq<Turn>): seq<Turn> {
    if turns == [] then []
    else NonBlank(turns[..|turns| - 1]) + if IsBlank(turns[|turns| - 1]) then [] else [turns[|turns| - 1]]
  }

  function OnlyStyles(preferences: seq<Preference>): seq<Preference> {
    if preferences == [] then []
    else
      var last := |preferences| - 1;
      OnlyStyles(preferences[..last]) + if preferences[last].StyleOf? then [preferences[last]] else []
  }

  /** What one later turn changes. */
  function Override(merged: Intent, next: Parsed): Intent {
    var i, s := next.intent, next.signals;
    merged.(
      scenario := if s.scenario then i.scenario else merged.scenario,
      participants := if s.scenario then i.participants else merged.participants,
      childFriendly := if s.scenario then i.childFriendly else merged.childFriendly,
      window := if s.window then i.window else merged.window,
      maxDistance := if s.distance then i.maxDistance else merged.maxDistance,
      dining := if s.dining then i.dining else merged.dining,
      activity := if s.activity then OnlyStyles(i.activity) else if s.scenario then i.activity else merged.activity)
  }

  function JoinTexts(parsed: seq<Parsed>): string
    requires parsed != []
  {
    if |parsed| == 1 then parsed[0].intent.rawText
    else JoinTexts(parsed[..|parsed| - 1]) + "\n" + parsed[|parsed| - 1].intent.rawText
  }

  function Merge(parsed: seq<Parsed>): Intent
    requires parsed != []
  {
    if |parsed| == 1 then parsed[0].intent
    else Override(Merge(parsed[..|parsed| - 1]), parsed[|parsed| - 1])
  }

  function MapAll<A, B>(f: A -> B, items: seq<A>): (mapped: seq<B>)
    ensures |mapped| == |items|
    ensures forall i | 0 <= i < |items| :: mapped[i] == f(items[i])
  {
    seq(|items|, i requires 0 <= i < |items| => f(items[i]))
  }

  lemma {:induction false} MapConcat<A, B>(f: A -> B, a: seq<A>, b: seq<A>)
    ensures MapAll(f, a + b) == MapAll(f, a) + MapAll(f, b)
  {
  }

  lemma {:induction false} MapOne<A, B>(f: A -> B, items: seq<A>, i: nat)
    requires i < |items|
    ensures MapAll(f, items[..i + 1]) == MapAll(f, items[..i]) + [f(items[i])]
  {
  }

  function ParseAll(turns: seq<Turn>): seq<Parsed> {
    MapAll(Parse, turns)
  }

  /** `build_follow_up_intent`; None when no turn says anything. */
  function FollowUpIntent(turns: seq<Turn>): Option<Intent> {
    var parsed := ParseAll(NonBlank(turns));
    if parsed == [] then None else Some(Merge(parsed).(rawText := JoinTexts(parsed)))
  }

  method BuildFollowUpIntent(turns: seq<Turn>) returns (intent: Option<Intent>)
    ensures intent == FollowUpIntent(turns)
  {
    var said := NormalizedTurns(turns);
    if said == [] {
      return None;
    }
    var parsed: seq<Parsed> := [];
    for i := 0 to |said|
      invariant parsed == ParseAll(said[..i])
    {
      MapOne(Parse, said, i);
      var next := ParseWithSignals(said[i]);
      parsed := parsed + [next];
    }
    assert said[..|said|] == said;
    var merged := MergeTurns(parsed);
    intent := Some(merged);
  }

  method MergeTurns(parsed: seq<Parsed>) returns (merged: Intent)
    requires parsed != []
    ensures merged == Merge(parsed).(rawText := JoinTexts(parsed))
  {
    merged := parsed[0].intent;
    var text := merged.rawText;
    for i := 1 to |parsed|
      invariant merged == Merge(parsed[..i])
      invariant text == JoinTexts(parsed[..i])
    {
      assert parsed[..i + 1][..i] == parsed[..i];
      merged := MergeTurn(merged, parsed[i]);
      text := text + "\n" + parsed[i].intent.rawText;
    }
    assert parsed[..|parsed|] == parsed;
    merged := merged.(rawText := text);
  }

  /** One iteration of the merge. */
  method MergeTurn(before: Intent, next: Parsed) returns (merged: Intent)
    ensures merged == Override(before, next)
  {
    merged := before;
    if next.signals.scenario {
      merged := merged.(scenario := next.intent.scenario, participants := next.intent.participants,
                        childFriendly := next.intent.childFriendly, activity := next.intent.activity);
    }
    if next.signals.window {
      merged := merged.(window := next.intent.window);
    }
    if next.signals.distance {
      merged := merged.(maxDistance := next.intent.maxDistance);
    }
    if next.signals.dining {
      merged := merged.(dining := next.intent.dining);
    }
    if next.signals.activity {
      merged := merged.(activity := OnlyStyles(next.intent.activity));
    }
  }

  method NormalizedTurns(turns: seq<Turn>) returns (said: seq<Turn>)
    ensures said == NonBlank(turns)
  {
    said := [];
    for i := 0 to |turns|
      invariant said == NonBlank(turns[..i])
    {
      assert turns[..i + 1][..i] == turns[..i];
      if !IsBlank(turns[i]) {
        said := said + [turns[i]];
      }
    }
    assert turns[..|turns|] == turns;
  }

  // ---- clarification -------------------------------------------------------------------------------------

  datatype MissingField = MissingScenario | MissingWindow

  predicate IsMissing(intent: Intent, field: MissingField) {
    match field
    case MissingScenario =>
      intent.scenario.Unknown? && intent.participants == Participants(1, []) && !intent.childFriendly
    case MissingWindow => !HasWindow(intent.window)
  }

  /** `apply_clarification_policy`: the fields to ask for, in their order; None when nothing is missing. */
  method ApplyClarificationPolicy(intent: Intent) returns (missing: Option<seq<MissingField>>)
    ensures missing.None? <==> forall field :: !IsMissing(intent, field)
    ensures missing.Some? ==>
              && (forall field :: field in missing.value <==> IsMissing(intent, field))
              && (missing.value == [MissingScenario] || missing.value == [MissingWindow]
                  || missing.value == [MissingScenario, MissingWindow])
  {
    var fields: seq<MissingField> := [];
    if IsMissing(intent, MissingScenario) {
      fields := fields + [MissingScenario];
    }
    if IsMissing(intent, MissingWindow) {
      fields := fields + [MissingWindow];
    }
    missing := if fields == [] then None else Some(fields);
  }

  /** What is asked for: who comes along, when nothing tells that; and when, when no part of the window is known. */
  lemma {:induction false} MissingExactly(intent: Intent)
    ensures IsMissing(intent, MissingScenario) <==>
            && intent.scenario == Unknown && intent.participants.adults == 1 && intent.participants.childrenAges == []
            && !intent.childFriendly
    ensures IsMissing(intent, MissingWindow) <==> intent.window == TimeWindow(None, None, None, None, None)
  {
  }

  // ---- the laws --------------------------------------------------------------------------------------------

  ghost predicate AllDifferent(ages: seq<nat>) {
    forall i, j | 0 <= i < j < |ages| :: ages[i] != ages[j]
  }

  /** The ages of a turn are those that some pattern matched, each once. */
  lemma {:induction false} AgesAreUnique(found: seq<seq<nat>>)
    ensures AllDifferent(ChildAges(found))
    ensures forall age :: age in ChildAges(found) <==> Matched(found, age)
  {
    if found != [] {
      var last := |found| - 1;
      AgesAreUnique(found[..last]);
      AddedAges(ChildAges(found[..last]), found[last]);
      forall age ensures age in ChildAges(found) <==> Matched(found, age) {
        MatchedGrows(found, age);
      }
    }
  }

  ghost predicate Matched(found: seq<seq<nat>>, age: nat) {
    exists p | 0 <= p < |found| :: age in found[p]
  }

  lemma {:induction false} MatchedGrows(found: seq<seq<nat>>, age: nat)
    requires found != []
    ensures Matched(found, age) <==> Matched(found[..|found| - 1], age) || age in found[|found| - 1]
  {
    var last := |found| - 1;
    if p :| 0 <= p < last && age in found[..last][p] {
      assert age in found[p];
    }
    if p :| 0 <= p < |found| && age in found[p] {
      assert p < last ==> age in found[..last][p];
    }
  }

  lemma {:induction false} AddedAges(ages: seq<nat>, matches: seq<nat>)
    requires AllDifferent(ages)
    ensures var after := AddAges(ages, matches);
            && AllDifferent(after)
            && (forall age :: age in after <==> age in ages || age in matches)
  {
    if matches != [] {
      var last := |matches| - 1;
      assert matches == matches[..last] + [matches[last]];
      AddedAges(ages, matches[..last]);
    }
  }

  /** All matches, pattern by pattern. */
  function AllMatches(found: seq<seq<nat>>): seq<nat> {
    if found == [] then [] else AllMatches(found[..|found| - 1]) + found[|found| - 1]
  }

  /** The positions ascend, and each age stands where it occurs for the first time. */
  ghost predicate FirstMatches(all: seq<nat>, ages: seq<nat>, at: seq<nat>) {
    && |at| == |ages|
    && (forall i, j | 0 <= i < j < |at| :: at[i] < at[j])
    && (forall i | 0 <= i < |at| :: at[i] < |all| && all[at[i]] == ages[i] && ages[i] !in all[..at[i]])
    && (forall age | age in all :: age in ages)
  }

  lemma {:induction false} OneMoreMatch(all: seq<nat>, ages: seq<nat>, at: seq<nat>, age: nat)
    requires FirstMatches(all, ages, at)
    ensures age in ages ==> FirstMatches(all + [age], ages, at)
    ensures age !in ages ==> FirstMatches(all + [age], ages + [age], at + [|all|])
  {
    var more := all + [age];
    forall i | 0 <= i < |at| ensures more[at[i]] == ages[i] && more[..at[i]] == all[..at[i]] {
    }
    assert more[..|all|] == all;
    if age !in ages {
      forall a | a in all ensures a != age {
        assert a in ages;
      }
    }
  }

  lemma {:induction false} MoreMatches(all: seq<nat>, ages: seq<nat>, at: seq<nat>, matches: seq<nat>)
    returns (more: seq<nat>)
    requires FirstMatches(all, ages, at)
    ensures FirstMatches(all + matches, AddAges(ages, matches), more)
  {
    more := at;
    if matches == [] {
      assert all + matches == all;
    } else {
      var last := |matches| - 1;
      more := MoreMatches(all, ages, at, matches[..last]);
      var before := AddAges(ages, matches[..last]);
      OneMoreMatch(all + matches[..last], before, more, matches[last]);
      assert all + matches == all + matches[..last] + [matches[last]];
      if matches[last] !in before {
        more := more + [|all + matches[..last]|];
      }
    }
  }

  /** The ages are listed in the order in which they first match. */
  lemma {:induction false} AgesInOrder(found: seq<seq<nat>>) returns (at: seq<nat>)
    ensures FirstMatches(AllMatches(found), ChildAges(found), at)
  {
    at := [];
    if found != [] {
      var last := |found| - 1;
      at := AgesInOrder(found[..last]);
      at := MoreMatches(AllMatches(found[..last]), ChildAges(found[..last]), at, found[last]);
    }
  }

  // ---- what one turn says ----------------------------------------------------------------------------------

  /** Some pattern found an age. */
  ghost predicate TellsAge(h: Hits) {
    exists age: nat :: Matched(h.ages, age)
  }

  ghost predicate MentionsChildren(h: Hits) {
    h.family || h.child || TellsAge(h)
  }

  lemma {:induction false} AgesAreTold(h: Hits)
    ensures ChildAges(h.ages) != [] <==> TellsAge(h)
  {
    AgesAreUnique(h.ages);
    if ChildAges(h.ages) != [] {
      assert ChildAges(h.ages)[0] in ChildAges(h.ages);
    }
  }

  /** The intent of a single turn, part by part, on what was found in it. */
  ghost predicate SaysWho(i: Intent, h: Hits) {
    && (i.scenario.Family? <==> h.family)
    && (i.scenario.Friends? <==> !h.family && h.friend)
    && (i.scenario.Solo? <==> !h.family && !h.friend && h.solo)
    && i.participants.adults == (if h.spouse then 2 else 1)
    && AllDifferent(i.participants.childrenAges)
    && (forall age :: age in i.participants.childrenAges <==> Matched(h.ages, age))
    && (i.childFriendly <==> MentionsChildren(h))
  }

  ghost predicate SaysWhen(w: TimeWindow, h: Hits) {
    && w.name == (if h.afternoon then Some("this_afternoon") else None) && w.startAt.None? && w.endAt.None?
    && w.durationMin == (if h.fewHours then Some(4) else None)
    && w.durationMax == (if h.fewHours then Some(6) else None)
  }

  ghost predicate SaysWhat(i: Intent, h: Hits) {
    && i.maxDistance == (if h.near then Some(8) else None)
    && i.dining == (if h.lighter then ["lighter_options"] else [])
    && i.activity == match (MentionsChildren(h), h.style)
                     case (true, Some(style)) => [ChildFriendly, StyleOf(style)]
                     case (true, None) => [ChildFriendly]
                     case (false, Some(style)) => [StyleOf(style)]
                     case (false, None) => []
  }

  /** What a turn says something about, that later turns can override. */
  ghost predicate SaysSomething(s: Signals, h: Hits) {
    && (s.scenario <==> h.family || h.child || h.spouse || h.friend || h.solo || TellsAge(h))
    && (s.window <==> h.afternoon || h.fewHours)
    && (s.distance <==> h.near) && (s.dining <==> h.lighter) && (s.activity <==> h.style.Some?)
  }

  lemma {:induction false} ParsedExactly(t: Turn)
    ensures var p := Parse(t);
            && p.intent.rawText == Trim(t.text) && SaysWho(p.intent, t.hits) && SaysWhen(p.intent.window, t.hits)
            && SaysWhat(p.intent, t.hits) && SaysSomething(p.signals, t.hits)
  {
    AgesAreUnique(t.hits.ages);
    AgesAreTold(t.hits);
  }

  datatype Group = ScenarioGroup | WindowGroup | DistanceGroup | DiningGroup | ActivityGroup

  /** A turn gives the merge something new for the group; who comes along also resets the activity preferences. */
  predicate Gives(p: Parsed, group: Group) {
    match group
    case ScenarioGroup => p.signals.scenario
    case WindowGroup => p.signals.window
    case DistanceGroup => p.signals.distance
    case DiningGroup => p.signals.dining
    case ActivityGroup => p.signals.activity || p.signals.scenario
  }

  /** The last turn that gives something for the group, or the first turn of all. */
  function LastGiver(parsed: seq<Parsed>, group: Group): (i: nat)
    requires parsed != []
    ensures i < |parsed|
    ensures i > 0 ==> Gives(parsed[i], group)
    ensures forall j | i < j < |parsed| :: !Gives(parsed[j], group)
  {
    if |parsed| == 1 || Gives(parsed[|parsed| - 1], group) then |parsed| - 1
    else LastGiver(parsed[..|parsed| - 1], group)
  }

  /**
   * What a turn contributes to the activity preferences; a later turn that names a style contributes just that style.
   */
  function Contribution(p: Parsed, first: bool): seq<Preference> {
    if !first && p.signals.activity then OnlyStyles(p.intent.activity) else p.intent.activity
  }

  ghost predicate TakenFrom(merged: Intent, p: Parsed, group: Group, first: bool) {
    match group
    case ScenarioGroup =>
      merged.scenario == p.intent.scenario && merged.participants == p.intent.participants
        && merged.childFriendly == p.intent.childFriendly
    case WindowGroup => merged.window == p.intent.window
    case DistanceGroup => merged.maxDistance == p.intent.maxDistance
    case DiningGroup => merged.dining == p.intent.dining
    case ActivityGroup => merged.activity == Contribution(p, first)
  }

  /**
   * The last turn that gives it wins, group by group: every part of the merged intent is that of one turn, parsed
   * alone.
   */
  lemma {:induction false} LastGiverWins(parsed: seq<Parsed>, group: Group)
    requires parsed != []
    ensures TakenFrom(Merge(parsed), parsed[LastGiver(parsed, group)], group, LastGiver(parsed, group) == 0)
  {
    if |parsed| > 1 {
      LastGiverWins(parsed[..|parsed| - 1], group);
    }
  }

  predicate SignalsField(p: Parsed, field: MissingField) {
    match field
    case MissingScenario => p.signals.scenario
    case MissingWindow => p.signals.window
  }

  /** In a single parse, a field is missing exactly when there was no signal for it. */
  lemma {:induction false} MissingWithoutSignal(t: Turn, field: MissingField)
    ensures IsMissing(Parse(t).intent, field) <==> !SignalsField(Parse(t), field)
  {
  }

  ghost predicate SaidAnywhere(parsed: seq<Parsed>, field: MissingField) {
    exists i | 0 <= i < |parsed| :: SignalsField(parsed[i], field)
  }

  /** Where each turn on its own misses exactly what it gives no signal for, so does the merge of all of them. */
  lemma {:induction false} MissingExactlyWhenNeverSaid(parsed: seq<Parsed>, field: MissingField)
    requires parsed != []
             && forall i | 0 <= i < |parsed| :: IsMissing(parsed[i].intent, field) <==> !SignalsField(parsed[i], field)
    ensures IsMissing(Merge(parsed), field) <==> !SaidAnywhere(parsed, field)
  {
    var group := if field.MissingScenario? then ScenarioGroup else WindowGroup;
    LastGiverWins(parsed, group);
    var i := LastGiver(parsed, group);
    if j :| 0 <= j < |parsed| && SignalsField(parsed[j], field) {
      assert Gives(parsed[j], group) && j <= i;
      assert SignalsField(parsed[i], field);
    }
  }

  lemma {:induction false} NonBlankConcat(turns: seq<Turn>, more: seq<Turn>)
    ensures NonBlank(turns + more) == NonBlank(turns) + NonBlank(more)
  {
    if more == [] {
      assert turns + more == turns;
    } else {
      var last := |more| - 1;
      assert (turns + more)[..|turns + more| - 1] == turns + more[..last];
      NonBlankConcat(turns, more[..last]);
    }
  }

  /** The texts of a conversation follow one another, line by line. */
  lemma {:induction false} TextsAreJoined(a: seq<Parsed>, b: seq<Parsed>)
    requires a != [] && b != []
    ensures JoinTexts(a + b) == JoinTexts(a) + "\n" + JoinTexts(b)
  {
    var last := |b| - 1;
    assert (a + b)[..|a + b| - 1] == a + b[..last];
    if last == 0 {
      assert a + b[..last] == a;
    } else {
      TextsAreJoined(a, b[..last]);
    }
  }

  /** Further turns are added to the text of what was said before. */
  lemma {:induction false} FollowUpsAreJoined(turns: seq<Turn>, more: seq<Turn>)
    requires FollowUpIntent(turns).Some? && FollowUpIntent(more).Some?
    ensures FollowUpIntent(turns + more).Some?
    ensures FollowUpIntent(turns + more).value.rawText
            == FollowUpIntent(turns).value.rawText + "\n" + FollowUpIntent(more).value.rawText
  {
    NonBlankConcat(turns, more);
    MapConcat(Parse, NonBlank(turns), NonBlank(more));
    TextsAreJoined(ParseAll(NonBlank(turns)), ParseAll(NonBlank(more)));
  }

  lemma {:induction false} OneTurn(t: Turn)
    ensures FollowUpIntent([t]) == if Trim(t.text) == "" then None else Some(Parse(t).intent)
  {
    assert [t][..0] == [];
    assert NonBlank([t]) == if IsBlank(t) then [] else [t];
  }

  predicate SaysSomethingAtAll(t: Turn) {
    Trim(t.text) != ""
  }

  /** The turns that count, in their order. */
  lemma {:induction false} NonBlankInOrder(turns: seq<Turn>) returns (at: seq<nat>)
    ensures KeptAt(turns, SaysSomethingAtAll, NonBlank(turns), at)
  {
    at := [];
    if turns != [] {
      var last := |turns| - 1;
      at := NonBlankInOrder(turns[..last]);
      OneMoreKept(turns[..last], turns[last], SaysSomethingAtAll, NonBlank(turns[..last]), at);
      assert turns == turns[..last] + [turns[last]];
      if SaysSomethingAtAll(turns[last]) {
        at := at + [last];
      } else {
        assert NonBlank(turns[..last]) + [] == NonBlank(turns[..last]);
      }
    }
  }

  lemma {:induction false} NonBlankExactly(turns: seq<Turn>)
    ensures forall t :: t in NonBlank(turns) <==> t in turns && !IsBlank(t)
  {
    if turns != [] {
      assert turns == turns[..|turns| - 1] + [turns[|turns| - 1]];
      NonBlankExactly(turns[..|turns| - 1]);
    }
  }

  /** A field of a conversation's intent is missing exactly when no turn of the conversation signalled it. */
  lemma {:induction false} ConversationMisses(turns: seq<Turn>, field: MissingField)
    requires FollowUpIntent(turns).Some?
    ensures IsMissing(FollowUpIntent(turns).value, field) <==> !SaidAnywhere(ParseAll(NonBlank(turns)), field)
  {
    var parsed := ParseAll(NonBlank(turns));
    forall i | 0 <= i < |parsed| ensures IsMissing(parsed[i].intent, field) <==> !SignalsField(parsed[i], field) {
      MissingWithoutSignal(NonBlank(turns)[i], field);
    }
    MissingExactlyWhenNeverSaid(parsed, field);
  }

  lemma {:induction false} SaidInParts(a: seq<Parsed>, b: seq<Parsed>, field: MissingField)
    ensures SaidAnywhere(a + b, field) <==> SaidAnywhere(a, field) || SaidAnywhere(b, field)
  {
    if i :| 0 <= i < |a| && SignalsField(a[i], field) {
      assert SignalsField((a + b)[i], field);
    }
    if i :| 0 <= i < |b| && SignalsField(b[i], field) {
      assert SignalsField((a + b)[|a| + i], field);
    }
    if i :| 0 <= i < |a + b| && SignalsField((a + b)[i], field) {
      assert if i < |a| then SignalsField(a[i], field) else SignalsField(b[i - |a|], field);
    }
  }

  /**
   * Clarification converges: further turns never make a field missing that was not missing before, and a turn that
   * signals a field settles it for the rest of the conversation.
   */
  lemma {:induction false} MissingNeverGrows(turns: seq<Turn>, more: seq<Turn>, field: MissingField)
    requires FollowUpIntent(turns).Some?
    ensures FollowUpIntent(turns + more).Some?
    ensures IsMissing(FollowUpIntent(turns + more).value, field) <==>
            IsMissing(FollowUpIntent(turns).value, field) && !SaidAnywhere(ParseAll(NonBlank(more)), field)
  {
    NonBlankConcat(turns, more);
    var said, later := ParseAll(NonBlank(turns)), ParseAll(NonBlank(more));
    MapConcat(Parse, NonBlank(turns), NonBlank(more));
    ConversationMisses(turns, field);
    ConversationMisses(turns + more, field);
    SaidInParts(said, later, field);
  }

  /** The conversation has an intent exactly when some turn says something. */
  lemma {:induction false} SomethingSaid(turns: seq<Turn>)
    ensures FollowUpIntent(turns).Some? <==> exists i | 0 <= i < |turns| :: !IsBlank(turns[i])
  {
    NonBlankExactly(turns);
    if i :| 0 <= i < |turns| && !IsBlank(turns[i]) {
      assert turns[i] in NonBlank(turns);
    }
    if NonBlank(turns) != [] {
      assert NonBlank(turns)[0] in turns;
    }
  }

  lemma {:induction false} StylesOfActivity(h: Hits)
    requires h.style.Some?
    ensures OnlyStyles(ActivityOf(h)) == [StyleOf(h.style.value)]
  {
    var preferences := ActivityOf(h);
    if |preferences| == 2 {
      assert OnlyStyles(preferences[..1]) == OnlyStyles(preferences[..1][..0]) + [];
    }
  }

  lemma {:induction false} FriendlyContribution(t: Turn, first: bool)
    ensures ChildFriendly in Contribution(Parse(t), first) <==> FriendlyOf(t.hits) && (first || t.hits.style.None?)
  {
    if t.hits.style.Some? {
      StylesOfActivity(t.hits);
    }
  }

  /**
   * A conversation asks for child-friendly activities exactly when the turn that decides the activities mentions the
   * children itself, and is the first turn or names no style: a style named later drops the wish.
   */
  lemma {:induction false} ChildFriendlyKeptExactly(turns: seq<Turn>)
    requires turns != []
    ensures var i := LastGiver(ParseAll(turns), ActivityGroup);
            ChildFriendly in Merge(ParseAll(turns)).activity <==>
            FriendlyOf(turns[i].hits) && (i == 0 || turns[i].hits.style.None?)
  {
    var i := LastGiver(ParseAll(turns), ActivityGroup);
    LastGiverWins(ParseAll(turns), ActivityGroup);
    FriendlyContribution(turns[i], i == 0);
  }

  const NO_HITS := Hits(false, false, false, false, false, [], false, false, false, false, None)

  function WithChild(): Turn {
    Turn("child", NO_HITS.(child := true))
  }

  function Outside(): Turn {
    Turn("outdoor", NO_HITS.(style := Some(Outdoor)))
  }

  lemma {:induction false} TwoTurns(a: Turn, b: Turn)
    requires !IsBlank(a) && !IsBlank(b)
    ensures FollowUpIntent([a, b]).Some?
    ensures FollowUpIntent([a, b]).value.childFriendly == Override(Parse(a).intent, Parse(b)).childFriendly
    ensures FollowUpIntent([a, b]).value.activity == Override(Parse(a).intent, Parse(b)).activity
  {
    assert [a, b][..1] == [a] && [a][..0] == [];
    assert NonBlank([a]) == [a];
    assert NonBlank([a, b]) == [a, b];
    var parsed := ParseAll([a, b]);
    assert parsed == [Parse(a), Parse(b)] && parsed[..1] == [Parse(a)];
    assert Merge(parsed) == Override(Merge(parsed[..1]), parsed[1]);
  }

  lemma {:induction false} SaySomething()
    ensures !IsBlank(WithChild()) && !IsBlank(Outside())
  {
    assert Trim("child") == "child" && Trim("outdoor") == "outdoor";
  }

  /** A child, then a style: the family is still remembered, but no child-friendly activity is asked for. */
  lemma {:induction false} StyleDropsChildFriendly()
    ensures FollowUpIntent([WithChild(), Outside()]).Some?
    ensures FollowUpIntent([WithChild(), Outside()]).value.childFriendly
    ensures FollowUpIntent([WithChild(), Outside()]).value.activity == [StyleOf(Outdoor)]
  {
    SaySomething();
    TwoTurns(WithChild(), Outside());
    StylesOfActivity(Outside().hits);
  }
}
