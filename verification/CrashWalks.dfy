/**
 * One attempt to execute a plan, stopped anywhere: what it finds in the Action Ledger, what it replays, whom it calls,
 * and what it leaves behind.
 */
module CrashWalks {
  import opened Wrappers
  import opened JsonTrees
  import opened Gateway
  import opened Plans
  import opened Execution

  /** Everything that stays the same over all attempts; providers answer a repeated request in the same way. */
  datatype Saga = Saga(runId: Id, provider: string, actions: seq<Action>, answer: WriteRequest -> Answer,
      start: Effects)

  /**
   * What confirmation and the gateway give every saga: the keys are distinct, and a row that is already there under one
   * of them, from an earlier execution of the plan, is a row of its run.
   */
  ghost predicate Keyed(s: Saga) {
    && (forall i, j | 0 <= i < j < |s.actions| :: s.actions[i].key != s.actions[j].key)
    && (forall i | 0 <= i < |s.actions| :: s.actions[i].key != "" && s.actions[i].target != "")
    && (forall i | 0 <= i < |s.actions| && HasRow(s, i) :: s.start.ledger[s.actions[i].key].runId == s.runId)
  }

  /** Action i has a row before the first attempt. */
  ghost predicate HasRow(s: Saga, i: nat)
    requires i < |s.actions|
  {
    s.actions[i].key in s.start.ledger
  }

  /** A plan that is confirmed for the first time. */
  ghost predicate Fresh(s: Saga) {
    Keyed(s) && forall i | 0 <= i < |s.actions| :: !HasRow(s, i)
  }

  /** Where an attempt stops: before action `done`, or, when the flag is given, inside its gateway call. */
  datatype Crash = Crash(done: nat, insideCall: Option<bool>)

  datatype Attempt = Attempt(world: World, crash: Crash)

  ghost function ContextFrom(s: Saga, world: World, effects: Effects): Context {
    Context(s.runId, s.provider, world, RunRows(effects.ledger, s.runId))
  }

  ghost function StopsBefore(s: Saga, a: Attempt): (done: nat)
    ensures done <= |s.actions|
  {
    if a.crash.done <= |s.actions| then a.crash.done else |s.actions|
  }

  /** The effects of one interrupted attempt. */
  ghost function Interrupted(s: Saga, a: Attempt, effects: Effects): Effects {
    var c := ContextFrom(s, a.world, effects);
    var done := StopsBefore(s, a);
    var walk := WalkActions(c, s.actions[..done], effects);
    if DiesInsideCall(s, a, effects)
    then CutOff(walk.effects, RequestFor(c, s.actions[done]), a.crash.insideCall.value)
    else walk.effects
  }

  /** The attempt gets as far as calling a provider, and dies inside that call. */
  ghost predicate DiesInsideCall(s: Saga, a: Attempt, effects: Effects) {
    var c := ContextFrom(s, a.world, effects);
    var done := StopsBefore(s, a);
    && a.crash.insideCall.Some? && done < |s.actions|
    && CallsProvider(c, WalkActions(c, s.actions[..done], effects), s.actions[done])
  }

  ghost predicate CallsProvider(c: Context, walk: Walk, a: Action) {
    && !walk.raised && !walk.priorFailure && a.key !in c.snapshot
    && Refusal(walk.effects, walk.asked, RequestFor(c, a), c.world).None?
  }

  ghost function AfterAttempts(s: Saga, attempts: seq<Attempt>): Effects {
    if attempts == [] then s.start
    else Interrupted(s, attempts[|attempts| - 1], AfterAttempts(s, attempts[..|attempts| - 1]))
  }

  /** The attempt that is not interrupted. */
  ghost function Final(s: Saga, world: World, effects: Effects): Walk {
    WalkActions(ContextFrom(s, world, effects), s.actions, effects)
  }

  // ---- the states that interrupted attempts can leave behind -------------------------------------

  ghost function Request(s: Saga, i: nat): WriteRequest
    requires i < |s.actions|
  {
    var a := s.actions[i];
    WriteRequest(s.runId, a.tool, a.payload, s.provider, true, a.target, a.key)
  }

  /** The row of action i once it is settled: the one that was there, or the one its provider's answer gives. */
  ghost function RowOf(s: Saga, i: nat): LedgerRow
    requires i < |s.actions|
  {
    if HasRow(s, i) then s.start.ledger[s.actions[i].key] else SettledRow(Request(s, i), s.answer(Request(s, i)))
  }

  ghost predicate SucceedBefore(s: Saga, n: nat) {
    n <= |s.actions| && forall i | 0 <= i < n :: IsSuccess(RowOf(s, i).status)
  }

  /** Each of the first n actions has a row; those that had none have been settled with their providers. */
  ghost function Upto(s: Saga, n: nat): Effects
    requires n <= |s.actions|
  {
    if n == 0 then s.start
    else if HasRow(s, n - 1) then Upto(s, n - 1)
    else
      var r := Request(s, n - 1);
      CloseRow(CallProvider(OpenRow(Upto(s, n - 1), r), r), r, s.answer(r))
  }

  /** The ledger has grown over a prefix of the actions; a broken-off call leaves one more row, pending for ever. */
  datatype Progress = Settled(n: nat) | Broken(n: nat, providerCalled: bool)

  ghost predicate Reachable(s: Saga, p: Progress) {
    match p
    case Settled(n) => n <= |s.actions| && (n > 0 ==> SucceedBefore(s, n - 1))
    case Broken(n, _) => n < |s.actions| && !HasRow(s, n) && SucceedBefore(s, n)
  }

  ghost function EffectsOf(s: Saga, p: Progress): Effects
    requires Reachable(s, p)
  {
    match p
    case Settled(n) => Upto(s, n)
    case Broken(n, called) => CutOff(Upto(s, n), Request(s, n), called)
  }

  lemma {:induction false} UptoLedger(s: Saga, n: nat)
    requires Keyed(s) && n <= |s.actions|
    ensures forall i | 0 <= i < |s.actions| :: s.actions[i].key in Upto(s, n).ledger <==> i < n || HasRow(s, i)
    ensures forall i | 0 <= i < |s.actions| && (i < n || HasRow(s, i)) ::
            Upto(s, n).ledger[s.actions[i].key] == RowOf(s, i)
  {
    if n > 0 {
      UptoLedger(s, n - 1);
    }
  }

  /**
   * What an attempt that starts with the first n actions settled has asked the rate limiter when it comes to action i:
   * the requests of the actions before i that had no row.
   */
  ghost function Asks(s: Saga, n: nat, i: nat): seq<WriteRequest>
    requires i <= |s.actions|
  {
    if i == 0 then []
    else Asks(s, n, i - 1) + if i - 1 >= n && !HasRow(s, i - 1) then [Request(s, i - 1)] else []
  }

  datatype Outcome = Outcome(ref: string, status: Status, response: Option<Json>, fault: Option<Fault>)

  ghost function OutcomeOf(r: ActionResult): Outcome {
    Outcome(r.ref, r.status, r.response, r.fault)
  }

  ghost function Outcomes(results: seq<ActionResult>): seq<Outcome> {
    seq(|results|, i requires 0 <= i < |results| => OutcomeOf(results[i]))
  }

  ghost function SettledOutcome(s: Saga, i: nat): Outcome
    requires i < |s.actions|
  {
    Outcome(s.actions[i].ref, RowOf(s, i).status, RowOf(s, i).response, RowOf(s, i).fault)
  }

  ghost function RefusedOutcome(s: Saga, world: World, i: nat): Outcome
    requires i < |s.actions|
  {
    if s.provider !in world.providers then Outcome(s.actions[i].ref, Failed, None, Some(UnknownProvider))
    else Outcome(s.actions[i].ref, RateLimited, None, Some(RateLimitExceeded))
  }

  /**
   * Action i is one that the gateway is asked for, when the rows of the first n actions exist, and that it refuses: its
   * provider is unknown, or the limiter refuses it after what the attempt has asked before.
   */
  ghost predicate Refuses(s: Saga, world: World, n: nat, i: nat)
    requires i < |s.actions|
  {
    && i >= n && !HasRow(s, i)
    && (s.provider !in world.providers || world.limits(Asks(s, n, i), Request(s, i)))
  }

  /** The outcome of action i when the rows of the first n actions exist. */
  ghost function OutcomeAt(s: Saga, world: World, n: nat, i: nat): Outcome
    requires i < |s.actions|
  {
    if Refuses(s, world, n, i) then RefusedOutcome(s, world, i) else SettledOutcome(s, i)
  }

  /** The first of the first m actions that does not succeed, or m. */
  ghost function StopsAt(s: Saga, world: World, n: nat, m: nat): nat
    requires m <= |s.actions|
  {
    if m == 0 then 0
    else
      var before := StopsAt(s, world, n, m - 1);
      if before < m - 1 then before
      else if IsSuccess(OutcomeAt(s, world, n, m - 1).status) then m
      else m - 1
  }

  /** The walk meets a row that says neither success nor failure, and is broken off there. */
  ghost predicate BreaksAt(s: Saga, world: World, n: nat, m: nat)
    requires m <= |s.actions|
  {
    var f := StopsAt(s, world, n, m);
    f < m && Unsettled(OutcomeAt(s, world, n, f).status)
  }

  /** How far the rows reach after the first m actions were walked. */
  ghost function RowsAfter(s: Saga, world: World, n: nat, m: nat): nat
    requires m <= |s.actions|
  {
    var f := StopsAt(s, world, n, m);
    if f < n then n
    else if f < m && !HasRow(s, f) && !Refuses(s, world, n, f) then f + 1
    else f
  }

  /** Neither a success nor a failure; the executor does not support rows of such a status. */
  ghost predicate Unsettled(status: Status) {
    !IsSuccess(status) && !IsFailure(status)
  }

  // ---- walking from a settled state ----------------------------------------------------------------

  lemma {:induction false} StopsAtFirst(s: Saga, world: World, n: nat, m: nat)
    requires m <= |s.actions|
    ensures var f := StopsAt(s, world, n, m);
            && f <= m
            && (forall i | 0 <= i < f :: IsSuccess(OutcomeAt(s, world, n, i).status))
            && (forall i | 0 <= i < f :: IsSuccess(RowOf(s, i).status) && !Refuses(s, world, n, i))
            && (f < m ==> !IsSuccess(OutcomeAt(s, world, n, f).status))
  {
    if m > 0 {
      StopsAtFirst(s, world, n, m - 1);
    }
  }

  lemma {:induction false} SnapshotKeys(s: Saga, n: nat)
    requires Keyed(s) && n <= |s.actions|
    ensures forall i | 0 <= i < |s.actions| ::
              s.actions[i].key in RunRows(Upto(s, n).ledger, s.runId) <==> i < n || HasRow(s, i)
    ensures forall i | 0 <= i < |s.actions| && (i < n || HasRow(s, i)) ::
              RunRows(Upto(s, n).ledger, s.runId)[s.actions[i].key] == RowOf(s, i)
  {
    UptoLedger(s, n);
  }

  ghost predicate WalkedTo(s: Saga, world: World, n: nat, m: nat, w: Walk)
    requires m <= |s.actions|
  {
    var f := StopsAt(s, world, n, m);
    && RowsAfter(s, world, n, m) <= |s.actions|
    && w.effects == Upto(s, RowsAfter(s, world, n, m))
    && w.raised == BreaksAt(s, world, n, m)
    && w.priorFailure == (f < m && !w.raised)
    && (f == m ==> w.asked == Asks(s, n, m))
    && |w.results| == (if w.raised then f else m)
    && (forall i | 0 <= i < |w.results| :: OutcomeOf(w.results[i]) == ExpectedOutcome(s, world, n, m, i))
  }

  ghost function ExpectedOutcome(s: Saga, world: World, n: nat, m: nat, i: nat): Outcome
    requires i < m <= |s.actions|
  {
    if i <= StopsAt(s, world, n, m) then OutcomeAt(s, world, n, i) else Outcome(s.actions[i].ref, Skipped, None, None)
  }

  lemma {:induction false} WalkOneMore(c: Context, actions: seq<Action>, m: nat, start: Effects)
    requires m < |actions|
    ensures WalkActions(c, actions[..m + 1], start) == Advance(c, WalkActions(c, actions[..m], start), actions[m])
  {
    assert actions[..m + 1][..m] == actions[..m];
  }

  /** The first m actions of an attempt that starts with the first n settled. */
  ghost function WalkOf(s: Saga, world: World, n: nat, m: nat): Walk
    requires n <= |s.actions| && m <= |s.actions|
  {
    WalkActions(ContextFrom(s, world, Upto(s, n)), s.actions[..m], Upto(s, n))
  }

  lemma {:induction false} WalkOfMore(s: Saga, world: World, n: nat, m: nat)
    requires n <= |s.actions| && m < |s.actions|
    ensures WalkOf(s, world, n, m + 1)
            == Advance(ContextFrom(s, world, Upto(s, n)), WalkOf(s, world, n, m), s.actions[m])
  {
    WalkOneMore(ContextFrom(s, world, Upto(s, n)), s.actions, m, Upto(s, n));
  }

  lemma {:induction false} WalkOfNothing(s: Saga, world: World, n: nat)
    requires n <= |s.actions|
    ensures WalkedTo(s, world, n, 0, WalkOf(s, world, n, 0))
  {
    assert WalkOf(s, world, n, 0) == Walk(Upto(s, n), [], [], false, false);
  }

  /**
   * An attempt that starts from settled rows replays them, calls providers for the rest, and stops at the first
   * failure.
   */
  lemma {:induction false} WalkFromSettled(s: Saga, world: World, n: nat, m: nat)
    requires Keyed(s) && Reachable(s, Settled(n)) && m <= |s.actions|
    requires world.answer == s.answer
    ensures WalkedTo(s, world, n, m, WalkOf(s, world, n, m))
  {
    if m == 0 {
      WalkOfNothing(s, world, n);
    } else {
      WalkFromSettled(s, world, n, m - 1);
      StepOfWalk(s, world, n, m - 1);
    }
  }

  lemma {:induction false} StepOfWalk(s: Saga, world: World, n: nat, m: nat)
    requires Keyed(s) && Reachable(s, Settled(n)) && m < |s.actions|
    requires world.answer == s.answer
    requires WalkedTo(s, world, n, m, WalkOf(s, world, n, m))
    ensures WalkedTo(s, world, n, m + 1, WalkOf(s, world, n, m + 1))
  {
    WalkOfMore(s, world, n, m);
    StepFromSettled(s, world, n, m, WalkOf(s, world, n, m), WalkOf(s, world, n, m + 1));
  }

  lemma {:induction false} StepFromSettled(s: Saga, world: World, n: nat, m: nat, before: Walk, after: Walk)
    requires Keyed(s) && Reachable(s, Settled(n)) && m < |s.actions|
    requires world.answer == s.answer
    requires WalkedTo(s, world, n, m, before)
    requires after == Advance(ContextFrom(s, world, Upto(s, n)), before, s.actions[m])
    ensures WalkedTo(s, world, n, m + 1, after)
  {
    RowsStep(s, world, n, m);
    if before.raised {
      BrokenStays(s, world, n, m, before);
    } else if StopsAt(s, world, n, m) < m {
      OutcomesGrow(s, world, n, m, before.results, ResultOf(s.actions[m], Skipped, None, None, false, true));
    } else if m < n || HasRow(s, m) {
      ReplayStep(s, world, n, m, before);
    } else {
      InvokeStep(s, world, n, m, before);
    }
  }

  lemma {:induction false} RowsStep(s: Saga, world: World, n: nat, m: nat)
    requires n <= |s.actions| && m < |s.actions|
    ensures var f := StopsAt(s, world, n, m);
            && StopsAt(s, world, n, m + 1) ==
               (if f < m then f else if IsSuccess(OutcomeAt(s, world, n, m).status) then m + 1 else m)
            && (f >= m ==> RowsAfter(s, world, n, m) == if m < n then n else m)
            && RowsAfter(s, world, n, m + 1) ==
               (if f < m then RowsAfter(s, world, n, m)
                else if m < n then n
                else if Refuses(s, world, n, m) || (HasRow(s, m) && !IsSuccess(OutcomeAt(s, world, n, m).status)) then m
                else m + 1)
            && RowsAfter(s, world, n, m) <= |s.actions|
            && RowsAfter(s, world, n, m + 1) <= |s.actions|
  {
    StopsAtFirst(s, world, n, m);
  }

  lemma {:induction false} BrokenStays(s: Saga, world: World, n: nat, m: nat, w: Walk)
    requires m < |s.actions| && w.raised && WalkedTo(s, world, n, m, w)
    ensures WalkedTo(s, world, n, m + 1, w)
  {
  }

  lemma {:induction false} OutcomesGrow(
      s: Saga, world: World, n: nat, m: nat, results: seq<ActionResult>, r: ActionResult)
    requires m < |s.actions| && |results| == m
    requires forall i | 0 <= i < m :: OutcomeOf(results[i]) == ExpectedOutcome(s, world, n, m, i)
    requires OutcomeOf(r) ==
             if StopsAt(s, world, n, m) < m then Outcome(s.actions[m].ref, Skipped, None, None)
               else OutcomeAt(s, world, n, m)
    ensures forall i | 0 <= i < m + 1 :: OutcomeOf((results + [r])[i]) == ExpectedOutcome(s, world, n, m + 1, i)
  {
    StopsAtFirst(s, world, n, m);
  }

  /** One more action that succeeds or fails, with its outcome, its rows, and what was asked for it. */
  ghost predicate GoesOn(s: Saga, world: World, n: nat, m: nat, before: Walk, after: Walk, r: ActionResult)
    requires m < |s.actions|
  {
    && OutcomeOf(r) == OutcomeAt(s, world, n, m) && (IsSuccess(r.status) || IsFailure(r.status))
    && RowsAfter(s, world, n, m + 1) <= |s.actions|
    && after.effects == Upto(s, RowsAfter(s, world, n, m + 1))
    && after.results == before.results + [r] && !after.raised && after.priorFailure == IsFailure(r.status)
    && (IsSuccess(r.status) ==> after.asked == Asks(s, n, m + 1))
  }

  lemma {:induction false} WalkedOneMore(
      s: Saga, world: World, n: nat, m: nat, before: Walk, after: Walk, r: ActionResult)
    requires n <= |s.actions| && m < |s.actions|
    requires WalkedTo(s, world, n, m, before) && !before.raised && StopsAt(s, world, n, m) == m
    requires GoesOn(s, world, n, m, before, after, r)
    ensures WalkedTo(s, world, n, m + 1, after)
  {
    RowsStep(s, world, n, m);
    OutcomesGrow(s, world, n, m, before.results, r);
  }

  lemma {:induction false} ReplayStep(s: Saga, world: World, n: nat, m: nat, before: Walk)
    requires Keyed(s) && n <= |s.actions| && m < |s.actions| && (m < n || HasRow(s, m))
    requires WalkedTo(s, world, n, m, before) && !before.raised && StopsAt(s, world, n, m) == m
    ensures WalkedTo(s, world, n, m + 1, Advance(ContextFrom(s, world, Upto(s, n)), before, s.actions[m]))
  {
    var row := RowOf(s, m);
    var r := ResultOf(s.actions[m], row.status, row.response, row.fault, true, false);
    var after := Advance(ContextFrom(s, world, Upto(s, n)), before, s.actions[m]);
    ReplayResult(s, world, n, m, before);
    if Unsettled(row.status) {
      BreaksOff(s, world, n, m, before);
    } else {
      ReplayGoesOn(s, world, n, m, before, r);
      WalkedOneMore(s, world, n, m, before, after, r);
    }
  }

  lemma {:induction false} ReplayGoesOn(s: Saga, world: World, n: nat, m: nat, before: Walk, r: ActionResult)
    requires n <= |s.actions| && m < |s.actions| && (m < n || HasRow(s, m)) && !Unsettled(RowOf(s, m).status)
    requires WalkedTo(s, world, n, m, before) && !before.raised && StopsAt(s, world, n, m) == m
    requires var row := RowOf(s, m);
             r == ResultOf(s.actions[m], row.status, row.response, row.fault, true, false)
             && OutcomeOf(r) == OutcomeAt(s, world, n, m)
    ensures GoesOn(s, world, n, m, before,
                   before.(results := before.results + [r], priorFailure := IsFailure(RowOf(s, m).status)), r)
  {
    RowsStep(s, world, n, m);
  }

  lemma {:induction false} BreaksOff(s: Saga, world: World, n: nat, m: nat, before: Walk)
    requires n <= |s.actions| && m < |s.actions| && (m < n || HasRow(s, m)) && Unsettled(RowOf(s, m).status)
    requires WalkedTo(s, world, n, m, before) && !before.raised && StopsAt(s, world, n, m) == m
    ensures WalkedTo(s, world, n, m + 1, before.(raised := true))
  {
    RowsStep(s, world, n, m);
  }

  lemma {:induction false} ReplayResult(s: Saga, world: World, n: nat, m: nat, before: Walk)
    requires Keyed(s) && n <= |s.actions| && m < |s.actions| && (m < n || HasRow(s, m))
    requires !before.raised && !before.priorFailure
    ensures var row := RowOf(s, m);
            var r := ResultOf(s.actions[m], row.status, row.response, row.fault, true, false);
            && OutcomeOf(r) == OutcomeAt(s, world, n, m)
            && Advance(ContextFrom(s, world, Upto(s, n)), before, s.actions[m])
               == if Unsettled(row.status) then before.(raised := true)
                  else before.(results := before.results + [r], priorFailure := IsFailure(row.status))
  {
    SnapshotKeys(s, n);
  }

  lemma {:induction false} InvokeStep(s: Saga, world: World, n: nat, m: nat, before: Walk)
    requires Keyed(s) && n <= m < |s.actions| && !HasRow(s, m)
    requires world.answer == s.answer
    requires WalkedTo(s, world, n, m, before) && !before.raised && StopsAt(s, world, n, m) == m
    ensures WalkedTo(s, world, n, m + 1, Advance(ContextFrom(s, world, Upto(s, n)), before, s.actions[m]))
  {
    var after := Advance(ContextFrom(s, world, Upto(s, n)), before, s.actions[m]);
    RowsStep(s, world, n, m);
    var r := InvokeResult(s, world, n, m, before);
    assert GoesOn(s, world, n, m, before, after, r);
    WalkedOneMore(s, world, n, m, before, after, r);
  }

  lemma {:induction false} InvokeResult(s: Saga, world: World, n: nat, m: nat, before: Walk) returns (r: ActionResult)
    requires Keyed(s) && n <= m < |s.actions| && !HasRow(s, m)
    requires world.answer == s.answer
    requires !before.raised && !before.priorFailure && before.effects == Upto(s, m) && before.asked == Asks(s, n, m)
    ensures var c := ContextFrom(s, world, Upto(s, n));
            && Advance(c, before, s.actions[m]).effects
               == (if Refuses(s, world, n, m) then before.effects else Upto(s, m + 1))
            && Advance(c, before, s.actions[m]).results == before.results + [r]
            && Advance(c, before, s.actions[m]).priorFailure == IsFailure(r.status)
            && !Advance(c, before, s.actions[m]).raised
            && (IsSuccess(r.status) ==> Advance(c, before, s.actions[m]).asked == Asks(s, n, m + 1))
    ensures OutcomeOf(r) == OutcomeAt(s, world, n, m) && (IsSuccess(r.status) || IsFailure(r.status))
  {
    var c := ContextFrom(s, world, Upto(s, n));
    SnapshotKeys(s, n);
    UptoLedger(s, m);
    assert RequestFor(c, s.actions[m]) == Request(s, m);
    var reply := Invoke(before.effects, before.asked, Request(s, m), world).1;
    r := ResultOf(s.actions[m], reply.status, reply.response, reply.fault, false, false);
  }

  // ---- walking into a broken-off call ----------------------------------------------------------------

  ghost predicate StuckAt(w: Walk, e: Effects, broken: bool) {
    w.effects == e && w.raised == broken && !w.priorFailure
  }

  /** A pending row is never retried: the attempt replays the rows before it and is broken off there, calling nobody. */
  lemma {:induction false} WalkFromBroken(s: Saga, world: World, n: nat, called: bool, m: nat)
    requires Keyed(s) && Reachable(s, Broken(n, called)) && m <= |s.actions|
    ensures var e := EffectsOf(s, Broken(n, called));
            StuckAt(WalkActions(ContextFrom(s, world, e), s.actions[..m], e), e, m > n)
  {
    if m > 0 {
      WalkFromBroken(s, world, n, called, m - 1);
      assert s.actions[..m][..m - 1] == s.actions[..m - 1];
      var e := EffectsOf(s, Broken(n, called));
      StepFromBroken(s, world, n, called, m - 1, WalkActions(ContextFrom(s, world, e), s.actions[..m - 1], e));
    }
  }

  lemma {:induction false} StepFromBroken(s: Saga, world: World, n: nat, called: bool, m: nat, before: Walk)
    requires Keyed(s) && Reachable(s, Broken(n, called)) && m < |s.actions|
    requires StuckAt(before, EffectsOf(s, Broken(n, called)), m > n)
    ensures var e := EffectsOf(s, Broken(n, called));
            StuckAt(Advance(ContextFrom(s, world, e), before, s.actions[m]), e, m >= n)
  {
    if m < n {
      RowBeforeBroken(s, n, called, m);
    } else if m == n {
      BrokenKeyInSnapshot(s, n, called);
    }
  }

  lemma {:induction false} BrokenKeyInSnapshot(s: Saga, n: nat, called: bool)
    requires Keyed(s) && Reachable(s, Broken(n, called))
    ensures var e := EffectsOf(s, Broken(n, called));
            s.actions[n].key in RunRows(e.ledger, s.runId) && e.ledger[s.actions[n].key].status.Pending?
  {
  }

  lemma {:induction false} RowBeforeBroken(s: Saga, n: nat, called: bool, i: nat)
    requires Keyed(s) && Reachable(s, Broken(n, called)) && i < n
    ensures var e := EffectsOf(s, Broken(n, called));
            && s.actions[i].key in RunRows(e.ledger, s.runId)
            && e.ledger[s.actions[i].key] == RowOf(s, i) && IsSuccess(RowOf(s, i).status)
  {
    SnapshotKeys(s, n);
    UptoLedger(s, n);
    assert s.actions[i].key != s.actions[n].key;
  }
}
