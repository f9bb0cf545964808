/** Candidate memories that feedback derives from a chosen plan and writes among the user's own. */
module MemoryFeedback {
  import opened Wrappers
  import opened JsonTrees
  import opened Plans
  import opened MemoryAudit
  import opened MemoryControl

  datatype CandidateMemory = CandidateMemory(key: string, preference: string)

  datatype GenerationStatus = NothingToGenerate | Degraded | Generated

  datatype CandidateSummary = CandidateSummary(status: GenerationStatus, created: seq<string>, updated: seq<string>,
      skipped: seq<string>)

  /** What the database refuses for one candidate: looking its row up, or writing it. */
  datatype Trouble = NoTrouble | OnLookup | OnWrite

  /** Trouble by position of the candidate. */
  type Troubles = nat -> Trouble

  /** The state of the loop over candidates. */
  datatype Writing = Writing(rows: Rows, created: seq<string>, updated: seq<string>, skipped: seq<string>,
      degraded: bool)

  /** `extract_feedback_memory_candidates`; None stands for a draft without such a part. */
  function ExtractCandidates(activityTags: Option<set<string>>, diningTags: Option<set<string>>): seq<CandidateMemory> {
    (if activityTags.None? then []
     else if "citywalk" in activityTags.value then [CandidateMemory("activity_style", "citywalk")]
     else if "indoor" in activityTags.value then [CandidateMemory("activity_style", "indoor")]
     else if "outdoor" in activityTags.value then [CandidateMemory("activity_style", "outdoor")]
     else [])
    + (if diningTags.Some? && "lighter_options" in diningTags.value
       then [CandidateMemory("spouse_lighter_meals", "lighter_options")] else [])
  }

  function CandidateValue(preference: string): Json {
    Obj([Field("preference", Str(preference)),
         Field("source", Str("feedback_writer_v0")),
         Field("evidence", Str("selected_candidate_tags"))])
  }

  /** The row a candidate is stored as, whether created or overwritten; either way without metadata. */
  function CandidateRow(userId: Id, c: CandidateMemory, runId: Id): Row {
    Row(userId, "preference", c.key, CandidateValue(c.preference), None, 0.6, None, Candidate, Some(runId), None)
  }

  function WriteOne(w: Writing, userId: Id, runId: Id, c: CandidateMemory, trouble: Trouble): Writing {
    if trouble.OnLookup? then w.(degraded := true)
    else
      var existing := FindRow(w.rows, userId, "preference", c.key);
      if existing.Some? && !w.rows[existing.value].status.Candidate? then w.(skipped := w.skipped + [c.key])
      else if trouble.OnWrite? then w.(degraded := true)
      else if existing.None? then w.(rows := w.rows + [CandidateRow(userId, c, runId)], created := w.created + [c.key])
      else w.(rows := w.rows[existing.value := CandidateRow(userId, c, runId)], updated := w.updated + [c.key])
  }

  function WriteAll(rows: Rows, userId: Id, runId: Id, candidates: seq<CandidateMemory>, troubles: Troubles): Writing {
    if candidates == [] then Writing(rows, [], [], [], false)
    else
      var last := |candidates| - 1;
      WriteOne(WriteAll(rows, userId, runId, candidates[..last], troubles), userId, runId, candidates[last],
               troubles(last))
  }

  /** `_persist_memory_candidates`; a run without a user writes nothing. */
  function PersistCandidates(
      rows: Rows, userId: Option<Id>, runId: Id, candidates: seq<CandidateMemory>, troubles: Troubles)
    : (Rows, CandidateSummary)
  {
    if candidates == [] then (rows, CandidateSummary(NothingToGenerate, [], [], []))
    else if userId.None? then (rows, CandidateSummary(Degraded, [], [], []))
    else
      var w := WriteAll(rows, userId.value, runId, candidates, troubles);
      (w.rows, CandidateSummary(if w.degraded then Degraded else Generated, w.created, w.updated, w.skipped))
  }

  lemma {:induction false} OneMoreWritten(
      rows: Rows, userId: Id, runId: Id, candidates: seq<CandidateMemory>, troubles: Troubles, i: nat)
    requires i < |candidates|
    ensures WriteAll(rows, userId, runId, candidates[..i + 1], troubles)
            == WriteOne(WriteAll(rows, userId, runId, candidates[..i], troubles), userId, runId, candidates[i],
                        troubles(i))
  {
    assert candidates[..i + 1][..i] == candidates[..i];
  }

  class FeedbackMemoryWriter {
    const memory: MemoryItemRepository

    constructor (memory: MemoryItemRepository)
      ensures this.memory == memory
    {
      this.memory := memory;
    }

    method PersistMemoryCandidates(
        userId: Option<Id>, runId: Id, candidates: seq<CandidateMemory>, troubles: Troubles)
      returns (summary: CandidateSummary)
      modifies memory
      ensures (memory.rows, summary) == PersistCandidates(old(memory.rows), userId, runId, candidates, troubles)
    {
      if candidates == [] {
        return CandidateSummary(NothingToGenerate, [], [], []);
      }
      if userId.None? {
        return CandidateSummary(Degraded, [], [], []);
      }
      var created, updated, skipped: seq<string> := [], [], [];
      var degraded := false;
      ghost var before := memory.rows;
      for i := 0 to |candidates|
        invariant WriteAll(before, userId.value, runId, candidates[..i], troubles)
                  == Writing(memory.rows, created, updated, skipped, degraded)
      {
        OneMoreWritten(before, userId.value, runId, candidates, troubles, i);
        var c := candidates[i];
        var added;
        added := PersistOne(userId.value, runId, c, troubles(i),
                            Writing(memory.rows, created, updated, skipped, degraded));
        created, updated, skipped, degraded := added.created, added.updated, added.skipped, added.degraded;
      }
      assert candidates[..|candidates|] == candidates;
      summary := CandidateSummary(if degraded then Degraded else Generated, created, updated, skipped);
    }

    /** One iteration; `w` is what was written so far. */
    method PersistOne(userId: Id, runId: Id, c: CandidateMemory, trouble: Trouble, w: Writing) returns (after: Writing)
      requires w.rows == memory.rows
      modifies memory
      ensures after == WriteOne(w, userId, runId, c, trouble) && memory.rows == after.rows
    {
      if trouble.OnLookup? {
        return w.(degraded := true);
      }
      var existing := FindRow(memory.rows, userId, "preference", c.key);
      if existing.Some? && !memory.rows[existing.value].status.Candidate? {
        return w.(skipped := w.skipped + [c.key]);
      }
      if trouble.OnWrite? {
        return w.(degraded := true);
      }
      if existing.None? {
        var id := memory.Insert(CandidateRow(userId, c, runId));
        after := w.(rows := memory.rows, created := w.created + [c.key]);
      } else {
        memory.Replace(existing.value, CandidateRow(userId, c, runId));
        after := w.(rows := memory.rows, updated := w.updated + [c.key]);
      }
    }
  }

  // ---- which candidates ------------------------------------------------------------------------------

  ghost predicate Tagged(tags: Option<set<string>>, tag: string) {
    tags.Some? && tag in tags.value
  }

  /** One style of the activity, the first of three that it is tagged with, and the lighter meals of the dining. */
  ghost predicate Offers(activityTags: Option<set<string>>, diningTags: Option<set<string>>, c: CandidateMemory) {
    || (c.key == "spouse_lighter_meals" && c.preference == "lighter_options" && Tagged(diningTags, "lighter_options"))
    || (c.key == "activity_style" && Tagged(activityTags, c.preference)
        && match c.preference {
             case "citywalk" => true
             case "indoor" => !Tagged(activityTags, "citywalk")
             case "outdoor" => !Tagged(activityTags, "citywalk") && !Tagged(activityTags, "indoor")
             case _ => false
           })
  }

  /** Exactly these are extracted, each key once, the activity before the dining. */
  lemma {:induction false} ExtractedExactly(activityTags: Option<set<string>>, diningTags: Option<set<string>>)
    ensures var candidates := ExtractCandidates(activityTags, diningTags);
            && (forall c :: c in candidates <==> Offers(activityTags, diningTags, c))
            && (forall i, j | 0 <= i < j < |candidates| ::
                  candidates[i].key == "activity_style" && candidates[j].key == "spouse_lighter_meals")
  {
    assert "citywalk"[0] == 'c' && "indoor"[0] == 'i' && "outdoor"[0] == 'o';
  }

  /** A candidate as it is stored: a suggestion of the run, without text, expiry or metadata. */
  ghost predicate Suggests(row: Row, userId: Id, runId: Id, c: CandidateMemory) {
    && row.userId == userId && row.memoryType == "preference" && row.key == c.key
    && row.value == Obj([Field("preference", Str(c.preference)), Field("source", Str("feedback_writer_v0")),
                         Field("evidence", Str("selected_candidate_tags"))])
    && row.text.None? && row.confidence == 0.6 && row.expiresAt.None? && row.status == Candidate
    && row.sourceRun == Some(runId) && row.governance.None?
  }

  /** The only row that suggests a candidate for a run. */
  lemma {:induction false} CandidateRowExactly(row: Row, userId: Id, runId: Id, c: CandidateMemory)
    ensures row == CandidateRow(userId, c, runId) <==> Suggests(row, userId, runId, c)
  {
  }

  /** Whatever the mapper, the metadata of an overwritten row is gone. */
  lemma {:induction false} OverwritingForgets(mapper: Mapper, before: Row, userId: Id, runId: Id, c: CandidateMemory)
    ensures Suggests(Written(mapper, before, CandidateRow(userId, c, runId)), userId, runId, c)
  {
  }

  // ---- one candidate -------------------------------------------------------------------------------

  ghost predicate SamePlace(a: Row, b: Row) {
    a.userId == b.userId && a.memoryType == b.memoryType && a.key == b.key
  }

  ghost predicate Hits(row: Row, userId: Id, key: string) {
    row.userId == userId && row.memoryType == "preference" && row.key == key
  }

  /** One candidate leaves the rows, or adds its row, or replaces the candidate row in its place. */
  lemma {:induction false} OneWrite(w: Writing, userId: Id, runId: Id, c: CandidateMemory, trouble: Trouble)
    ensures var row, after := CandidateRow(userId, c, runId), WriteOne(w, userId, runId, c, trouble).rows;
            || after == w.rows
            || (after == w.rows + [row] && forall i | 0 <= i < |w.rows| :: !Hits(w.rows[i], userId, c.key))
            || exists i | 0 <= i < |w.rows| ::
                 w.rows[i].status.Candidate? && Hits(w.rows[i], userId, c.key) && after == w.rows[i := row]
  {
    var existing := FindRow(w.rows, userId, "preference", c.key);
    if existing.Some? {
      assert Hits(w.rows[existing.value], userId, c.key);
    }
  }

  lemma {:induction false} OneWriteTouches(w: Writing, userId: Id, runId: Id, c: CandidateMemory, trouble: Trouble)
    ensures OnlyCandidatesDiffer(w.rows, WriteOne(w, userId, runId, c, trouble).rows, userId)
  {
    OneWrite(w, userId, runId, c, trouble);
  }

  ghost predicate OnlyCandidatesDiffer(rows: Rows, after: Rows, userId: Id) {
    && |rows| <= |after|
    && (forall i | 0 <= i < |rows| && !rows[i].status.Candidate? :: after[i] == rows[i])
    && (forall i | 0 <= i < |rows| && rows[i].status.Candidate? ::
        after[i].status.Candidate? && SamePlace(after[i], rows[i]))
    && (forall i | |rows| <= i < |after| :: after[i].status.Candidate? && after[i].userId == userId)
  }

  lemma {:induction false} DifferTransitively(a: Rows, b: Rows, c: Rows, userId: Id)
    requires OnlyCandidatesDiffer(a, b, userId) && OnlyCandidatesDiffer(b, c, userId)
    ensures OnlyCandidatesDiffer(a, c, userId)
  {
    forall i | 0 <= i < |a| ensures a[i].status.Candidate? || c[i] == a[i] {
      assert a[i].status.Candidate? || b[i] == a[i];
    }
    forall i | |a| <= i < |c| ensures c[i].status.Candidate? && c[i].userId == userId {
      if i < |b| {
        assert b[i].status.Candidate? && SamePlace(c[i], b[i]);
      }
    }
    forall i | 0 <= i < |a| && a[i].status.Candidate? ensures c[i].status.Candidate? && SamePlace(c[i], a[i]) {
      assert b[i].status.Candidate? && SamePlace(b[i], a[i]) && SamePlace(c[i], b[i]);
    }
  }

  /** In a table with one row per user, type and key, exactly the candidate row in the candidate's place is replaced. */
  lemma {:induction false} OneWriteExactly(w: Writing, userId: Id, runId: Id, c: CandidateMemory, trouble: Trouble,
      i: nat)
    requires UniqueKeys(w.rows) && i < |w.rows|
    ensures i < |WriteOne(w, userId, runId, c, trouble).rows|
    ensures WriteOne(w, userId, runId, c, trouble).rows[i] ==
            if w.rows[i].status.Candidate? && Hits(w.rows[i], userId, c.key) && trouble.NoTrouble?
            then CandidateRow(userId, c, runId) else w.rows[i]
  {
    var existing := FindRow(w.rows, userId, "preference", c.key);
    if existing.Some? {
      var k := existing.value;
      assert Hits(w.rows[k], userId, c.key);
      if Hits(w.rows[i], userId, c.key) {
        assert SamePlace(w.rows[k], w.rows[i]) && SamePlace(w.rows[i], w.rows[k]);
        assert i == k;
      }
    }
  }

  // ---- all candidates --------------------------------------------------------------------------------

  /**
   * Writing candidates adds candidate rows and overwrites candidate rows. Every other row is left exactly as it was,
   * and no position changes its owner, type or key.
   */
  lemma {:induction false} OnlyCandidatesAreTouched(
      rows: Rows, userId: Id, runId: Id, candidates: seq<CandidateMemory>, troubles: Troubles)
    ensures OnlyCandidatesDiffer(rows, WriteAll(rows, userId, runId, candidates, troubles).rows, userId)
  {
    if candidates != [] {
      var last := |candidates| - 1;
      var before := WriteAll(rows, userId, runId, candidates[..last], troubles);
      OnlyCandidatesAreTouched(rows, userId, runId, candidates[..last], troubles);
      OneWriteTouches(before, userId, runId, candidates[last], troubles(last));
      DifferTransitively(rows, before.rows, WriteAll(rows, userId, runId, candidates, troubles).rows, userId);
    }
  }

  /** Some candidate belongs in the place of the row, and the database lets it through. */
  ghost predicate Matched(row: Row, userId: Id, candidates: seq<CandidateMemory>, troubles: Troubles) {
    exists k | 0 <= k < |candidates| :: troubles(k).NoTrouble? && Hits(row, userId, candidates[k].key)
  }

  ghost predicate UniqueKeys(rows: Rows) {
    forall i, j | 0 <= i < j < |rows| :: !SamePlace(rows[i], rows[j])
  }

  lemma {:induction false} UniqueKeysKeptOnce(w: Writing, userId: Id, runId: Id, c: CandidateMemory, trouble: Trouble)
    requires UniqueKeys(w.rows)
    ensures UniqueKeys(WriteOne(w, userId, runId, c, trouble).rows)
  {
    OneWrite(w, userId, runId, c, trouble);
    var row, after := CandidateRow(userId, c, runId), WriteOne(w, userId, runId, c, trouble).rows;
    if after == w.rows + [row] && forall i | 0 <= i < |w.rows| :: !Hits(w.rows[i], userId, c.key) {
      AppendedIsUnique(w.rows, row);
    } else if after != w.rows {
      var i :| 0 <= i < |w.rows| && Hits(w.rows[i], userId, c.key) && after == w.rows[i := row];
      ReplacedIsUnique(w.rows, i, row);
    }
  }

  lemma {:induction false} AppendedIsUnique(rows: Rows, row: Row)
    requires UniqueKeys(rows) && forall i | 0 <= i < |rows| :: !SamePlace(rows[i], row)
    ensures UniqueKeys(rows + [row])
  {
  }

  lemma {:induction false} ReplacedIsUnique(rows: Rows, id: nat, row: Row)
    requires UniqueKeys(rows) && id < |rows| && SamePlace(row, rows[id])
    ensures UniqueKeys(rows[id := row])
  {
  }

  lemma {:induction false} UniqueKeysKept(
      rows: Rows, userId: Id, runId: Id, candidates: seq<CandidateMemory>, troubles: Troubles)
    requires UniqueKeys(rows)
    ensures UniqueKeys(WriteAll(rows, userId, runId, candidates, troubles).rows)
  {
    if candidates != [] {
      var last := |candidates| - 1;
      UniqueKeysKept(rows, userId, runId, candidates[..last], troubles);
      UniqueKeysKeptOnce(WriteAll(rows, userId, runId, candidates[..last], troubles), userId, runId,
                         candidates[last], troubles(last));
    }
  }

  ghost predicate HoldsCandidate(after: Row, row: Row, userId: Id, runId: Id, candidates: seq<CandidateMemory>) {
    exists k | 0 <= k < |candidates| ::
      Hits(row, userId, candidates[k].key) && Suggests(after, userId, runId, candidates[k])
  }

  /** Exactly the candidate rows that a candidate matches are overwritten. */
  lemma {:induction false} OverwrittenExactly(
      rows: Rows, userId: Id, runId: Id, candidates: seq<CandidateMemory>, troubles: Troubles, i: nat)
    requires UniqueKeys(rows) && i < |rows|
    ensures i < |WriteAll(rows, userId, runId, candidates, troubles).rows|
    ensures var after := WriteAll(rows, userId, runId, candidates, troubles).rows[i];
            if rows[i].status.Candidate? && Matched(rows[i], userId, candidates, troubles)
            then HoldsCandidate(after, rows[i], userId, runId, candidates)
            else after == rows[i]
  {
    if candidates != [] {
      var last := |candidates| - 1;
      var before := WriteAll(rows, userId, runId, candidates[..last], troubles);
      OverwrittenExactly(rows, userId, runId, candidates[..last], troubles, i);
      OnlyCandidatesAreTouched(rows, userId, runId, candidates[..last], troubles);
      UniqueKeysKept(rows, userId, runId, candidates[..last], troubles);
      OneWriteExactly(before, userId, runId, candidates[last], troubles(last), i);
      MatchedGrows(rows[i], userId, candidates, troubles);
      if before.rows[i] == WriteAll(rows, userId, runId, candidates, troubles).rows[i] {
        HoldsGrows(before.rows[i], rows[i], userId, runId, candidates);
      } else {
        assert Hits(rows[i], userId, candidates[last].key);
      }
    }
  }

  lemma {:induction false} MatchedGrows(row: Row, userId: Id, candidates: seq<CandidateMemory>, troubles: Troubles)
    requires candidates != []
    ensures var last := |candidates| - 1;
            Matched(row, userId, candidates, troubles) <==>
            || Matched(row, userId, candidates[..last], troubles)
            || (troubles(last).NoTrouble? && Hits(row, userId, candidates[last].key))
  {
    var last := |candidates| - 1;
    if k :| 0 <= k < |candidates| && troubles(k).NoTrouble? && Hits(row, userId, candidates[k].key) {
      assert k < last ==> candidates[..last][k] == candidates[k];
    }
    if k :| 0 <= k < last && troubles(k).NoTrouble? && Hits(row, userId, candidates[..last][k].key) {
      assert candidates[..last][k] == candidates[k];
    }
  }

  lemma {:induction false} HoldsGrows(after: Row, row: Row, userId: Id, runId: Id, candidates: seq<CandidateMemory>)
    requires candidates != []
    ensures HoldsCandidate(after, row, userId, runId, candidates[..|candidates| - 1]) ==>
            HoldsCandidate(after, row, userId, runId, candidates)
  {
    var prefix := candidates[..|candidates| - 1];
    if k :| 0 <= k < |prefix| && Hits(row, userId, prefix[k].key) && Suggests(after, userId, runId, prefix[k]) {
      assert candidates[k] == prefix[k];
    }
  }

  /** So the events of a row survive a feedback write exactly when it is no matched candidate, or has none to lose. */
  lemma {:induction false} HistorySurvivesExactly(
      rows: Rows, userId: Id, runId: Id, candidates: seq<CandidateMemory>, troubles: Troubles, i: nat)
    requires UniqueKeys(rows) && i < |rows|
    ensures i < |WriteAll(rows, userId, runId, candidates, troubles).rows|
    ensures EventsOf(WriteAll(rows, userId, runId, candidates, troubles).rows[i]) == EventsOf(rows[i]) <==>
            !(rows[i].status.Candidate? && Matched(rows[i], userId, candidates, troubles)) || EventsOf(rows[i]) == []
  {
    OverwrittenExactly(rows, userId, runId, candidates, troubles, i);
  }

  // ---- what is reported -----------------------------------------------------------------------------------

  /** What becomes of a candidate, told from the rows that were there before the write. */
  datatype Fate = Failing | Skipping | Creating | Updating

  ghost predicate Meets(rows: Rows, userId: Id, c: CandidateMemory, trouble: Trouble, fate: Fate) {
    var held := exists i | 0 <= i < |rows| :: Hits(rows[i], userId, c.key);
    var kept := exists i | 0 <= i < |rows| :: Hits(rows[i], userId, c.key) && !rows[i].status.Candidate?;
    match fate
    case Failing => trouble.OnLookup? || (trouble.OnWrite? && !kept)
    case Skipping => !trouble.OnLookup? && kept
    case Creating => trouble.NoTrouble? && !held
    case Updating => trouble.NoTrouble? && held && !kept
  }

  lemma {:induction false} OneFate(w: Writing, userId: Id, runId: Id, c: CandidateMemory, trouble: Trouble, fate: Fate)
    requires UniqueKeys(w.rows) && Meets(w.rows, userId, c, trouble, fate)
    ensures var after := WriteOne(w, userId, runId, c, trouble);
            && after.created == w.created + (if fate.Creating? then [c.key] else [])
            && after.updated == w.updated + (if fate.Updating? then [c.key] else [])
            && after.skipped == w.skipped + (if fate.Skipping? then [c.key] else [])
            && after.degraded == (w.degraded || fate.Failing?)
  {
    var existing := FindRow(w.rows, userId, "preference", c.key);
    if existing.Some? {
      var k := existing.value;
      assert Hits(w.rows[k], userId, c.key);
      forall i | 0 <= i < |w.rows| && Hits(w.rows[i], userId, c.key) ensures i == k {
        assert SamePlace(w.rows[k], w.rows[i]) && SamePlace(w.rows[i], w.rows[k]);
      }
    } else {
      assert forall i | 0 <= i < |w.rows| :: !Hits(w.rows[i], userId, c.key);
    }
  }

  ghost predicate DistinctKeys(candidates: seq<CandidateMemory>) {
    forall i, j | 0 <= i < j < |candidates| :: candidates[i].key != candidates[j].key
  }

  /** Writing candidates of other keys does not change what becomes of a candidate. */
  lemma {:induction false} FateStays(
      rows: Rows, userId: Id, runId: Id, candidates: seq<CandidateMemory>, troubles: Troubles, c: CandidateMemory,
      trouble: Trouble, fate: Fate)
    requires UniqueKeys(rows) && forall k | 0 <= k < |candidates| :: candidates[k].key != c.key
    ensures Meets(WriteAll(rows, userId, runId, candidates, troubles).rows, userId, c, trouble, fate) <==>
            Meets(rows, userId, c, trouble, fate)
  {
    if candidates != [] {
      var last := |candidates| - 1;
      var before := WriteAll(rows, userId, runId, candidates[..last], troubles);
      FateStays(rows, userId, runId, candidates[..last], troubles, c, trouble, fate);
      OneWrite(before, userId, runId, candidates[last], troubles(last));
      OtherRowKeepsFate(before, WriteOne(before, userId, runId, candidates[last], troubles(last)).rows, userId, runId,
                        candidates[last], c, trouble, fate);
    }
  }

  lemma {:induction false} OtherRowKeepsFate(
      w: Writing, after: Rows, userId: Id, runId: Id, other: CandidateMemory, c: CandidateMemory, trouble: Trouble,
      fate: Fate)
    requires other.key != c.key
    requires var row := CandidateRow(userId, other, runId);
             || after == w.rows
             || after == w.rows + [row]
             || exists i | 0 <= i < |w.rows| :: Hits(w.rows[i], userId, other.key) && after == w.rows[i := row]
    ensures Meets(after, userId, c, trouble, fate) <==> Meets(w.rows, userId, c, trouble, fate)
  {
    assert |w.rows| <= |after|;
    assert forall i | 0 <= i < |after| && Hits(after[i], userId, c.key) :: i < |w.rows| && after[i] == w.rows[i];
    assert forall i | 0 <= i < |w.rows| && Hits(w.rows[i], userId, c.key) :: after[i] == w.rows[i];
  }

  ghost predicate SomeMeets(
      rows: Rows, userId: Id, candidates: seq<CandidateMemory>, troubles: Troubles, key: string, fate: Fate)
  {
    exists k | 0 <= k < |candidates| ::
      candidates[k].key == key && Meets(rows, userId, candidates[k], troubles(k), fate)
  }

  ghost predicate SomeFails(rows: Rows, userId: Id, candidates: seq<CandidateMemory>, troubles: Troubles) {
    exists k | 0 <= k < |candidates| :: Meets(rows, userId, candidates[k], troubles(k), Failing)
  }

  /** The keys of a report are those of the candidates that met that fate. */
  ghost predicate Reports(w: Writing, rows: Rows, userId: Id, candidates: seq<CandidateMemory>, troubles: Troubles) {
    && (forall key :: key in w.created <==> SomeMeets(rows, userId, candidates, troubles, key, Creating))
    && (forall key :: key in w.updated <==> SomeMeets(rows, userId, candidates, troubles, key, Updating))
    && (forall key :: key in w.skipped <==> SomeMeets(rows, userId, candidates, troubles, key, Skipping))
    && (w.degraded <==> SomeFails(rows, userId, candidates, troubles))
  }

  lemma {:induction false} OneMoreMeets(
      rows: Rows, userId: Id, candidates: seq<CandidateMemory>, troubles: Troubles, key: string, fate: Fate)
    requires candidates != []
    ensures var last := |candidates| - 1;
            SomeMeets(rows, userId, candidates, troubles, key, fate) <==>
            || SomeMeets(rows, userId, candidates[..last], troubles, key, fate)
            || (candidates[last].key == key && Meets(rows, userId, candidates[last], troubles(last), fate))
  {
    var last := |candidates| - 1;
    if k :| 0 <= k < |candidates| && candidates[k].key == key
            && Meets(rows, userId, candidates[k], troubles(k), fate) {
      assert k < last ==> candidates[..last][k] == candidates[k];
    }
    if k :| 0 <= k < last && candidates[..last][k].key == key
            && Meets(rows, userId, candidates[..last][k], troubles(k), fate) {
      assert candidates[..last][k] == candidates[k];
    }
  }

  lemma {:induction false} OneMoreFails(
      rows: Rows, userId: Id, candidates: seq<CandidateMemory>, troubles: Troubles)
    requires candidates != []
    ensures var last := |candidates| - 1;
            SomeFails(rows, userId, candidates, troubles) <==>
            || SomeFails(rows, userId, candidates[..last], troubles)
            || Meets(rows, userId, candidates[last], troubles(last), Failing)
  {
    var last := |candidates| - 1;
    if k :| 0 <= k < |candidates| && Meets(rows, userId, candidates[k], troubles(k), Failing) {
      assert k < last ==> candidates[..last][k] == candidates[k];
    }
    if k :| 0 <= k < last && Meets(rows, userId, candidates[..last][k], troubles(k), Failing) {
      assert candidates[..last][k] == candidates[k];
    }
  }

  lemma {:induction false} OneFateEach(rows: Rows, userId: Id, c: CandidateMemory, trouble: Trouble)
    returns (fate: Fate)
    ensures forall other :: Meets(rows, userId, c, trouble, other) <==> other == fate
  {
    var held := exists i | 0 <= i < |rows| :: Hits(rows[i], userId, c.key);
    var kept := exists i | 0 <= i < |rows| :: Hits(rows[i], userId, c.key) && !rows[i].status.Candidate?;
    fate := if trouble.OnLookup? then Failing
            else if kept then Skipping
            else if trouble.OnWrite? then Failing
            else if held then Updating
            else Creating;
  }

  /** Of candidates with distinct keys: what is reported of each is told by the rows before the write. */
  lemma {:induction false} ReportedExactly(
      rows: Rows, userId: Id, runId: Id, candidates: seq<CandidateMemory>, troubles: Troubles)
    requires UniqueKeys(rows) && DistinctKeys(candidates)
    ensures Reports(WriteAll(rows, userId, runId, candidates, troubles), rows, userId, candidates, troubles)
  {
    if candidates != [] {
      var last := |candidates| - 1;
      var before := WriteAll(rows, userId, runId, candidates[..last], troubles);
      ReportedExactly(rows, userId, runId, candidates[..last], troubles);
      UniqueKeysKept(rows, userId, runId, candidates[..last], troubles);
      var fate := OneFateEach(rows, userId, candidates[last], troubles(last));
      FateStays(rows, userId, runId, candidates[..last], troubles, candidates[last], troubles(last), fate);
      OneFate(before, userId, runId, candidates[last], troubles(last), fate);
      forall key, f ensures
          SomeMeets(rows, userId, candidates, troubles, key, f) <==>
          || SomeMeets(rows, userId, candidates[..last], troubles, key, f)
          || (candidates[last].key == key && f == fate) {
        OneMoreMeets(rows, userId, candidates, troubles, key, f);
      }
      OneMoreFails(rows, userId, candidates, troubles);
    }
  }

  /** The status of the write: nothing without candidates, degraded without a user or when the database refused one. */
  lemma {:induction false} StatusIsReported(
      rows: Rows, userId: Option<Id>, runId: Id, candidates: seq<CandidateMemory>, troubles: Troubles)
    requires UniqueKeys(rows) && DistinctKeys(candidates)
    ensures var summary := PersistCandidates(rows, userId, runId, candidates, troubles).1;
            && (summary.status.NothingToGenerate? <==> candidates == [])
            && (summary.status.Degraded? <==>
                candidates != [] && (userId.None? || SomeFails(rows, userId.value, candidates, troubles)))
            && (userId.None? ==>
                  && summary.created == summary.updated == summary.skipped == []
                  && PersistCandidates(rows, userId, runId, candidates, troubles).0 == rows)
            && (userId.Some? ==>
                Reports(Writing(rows, summary.created, summary.updated, summary.skipped, summary.status.Degraded?),
                        rows, userId.value, candidates, troubles))
  {
    if userId.Some? {
      ReportedExactly(rows, userId.value, runId, candidates, troubles);
    }
  }

  ghost predicate IsNormal(c: CandidateMemory) {
    c.key in SUPPORTED_KEYS && NormalizeText(c.key, c.preference) == Some(c.preference)
  }

  lemma {:induction false} StyleIsNormal(c: CandidateMemory)
    requires c.key == "activity_style"
             && (c.preference == "citywalk" || c.preference == "indoor" || c.preference == "outdoor")
    ensures IsNormal(c)
  {
    if c.preference == "citywalk" {
      CitywalkIsFixed();
    } else if c.preference == "indoor" {
      IndoorIsFixed();
    } else {
      OutdoorIsFixed();
    }
  }

  lemma {:induction false} MealIsNormal(c: CandidateMemory)
    requires c.key == "spouse_lighter_meals" && c.preference == "lighter_options"
    ensures IsNormal(c)
  {
    LighterIsFixed();
  }

  /** Every candidate is a supported preference in normal form. */
  lemma {:induction false} CandidatesAreNormal(activityTags: Option<set<string>>, diningTags: Option<set<string>>)
    ensures forall c | c in ExtractCandidates(activityTags, diningTags) :: IsNormal(c)
  {
    forall c | c in ExtractCandidates(activityTags, diningTags) ensures IsNormal(c) {
      if c.key == "activity_style" {
        StyleIsNormal(c);
      } else {
        MealIsNormal(c);
      }
    }
  }
}
