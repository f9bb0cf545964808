/**
 * Interrupted attempts to execute a plan, and the attempt that finally completes it.
 *
 * An attempt may stop between any two actions, or inside a gateway call, after the pending row was stored and before
 * or after the provider was invoked. The next attempt starts again from the plan and the Action Ledger.
 */
module CrashResume {
  import opened Gateway
  import opened Plans
  import opened Execution
  import opened CrashWalks

  // ---- interrupted attempts ------------------------------------------------------------------------

  /** The progress after one more interrupted attempt. */
  ghost function Next(s: Saga, p: Progress, a: Attempt): Progress
    requires Reachable(s, p)
  {
    match p
    case Broken(_, _) => p
    case Settled(n) =>
      var done := StopsBefore(s, a);
      if CallsAt(s, a, n) then Broken(done, a.crash.insideCall.value)
      else Settled(RowsAfter(s, a.world, n, done))
  }

  /** The attempt reaches the call it is to die in. */
  ghost predicate CallsAt(s: Saga, a: Attempt, n: nat) {
    var done := StopsBefore(s, a);
    && a.crash.insideCall.Some? && n <= done < |s.actions|
    && StopsAt(s, a.world, n, done) == done && !HasRow(s, done) && !Refuses(s, a.world, n, done)
  }

  lemma {:induction false} NextIsReachable(s: Saga, p: Progress, a: Attempt)
    requires Keyed(s) && Reachable(s, p)
    ensures Reachable(s, Next(s, p, a))
  {
    if p.Settled? {
      var done := StopsBefore(s, a);
      StopsAtFirst(s, a.world, p.n, done);
    }
  }

  lemma {:induction false} InterruptedBroken(s: Saga, n: nat, called: bool, a: Attempt)
    requires Keyed(s) && Reachable(s, Broken(n, called))
    ensures var e := EffectsOf(s, Broken(n, called));
            Interrupted(s, a, e) == e && !DiesInsideCall(s, a, e)
  {
    var done := StopsBefore(s, a);
    WalkFromBroken(s, a.world, n, called, done);
    if done == n {
      BrokenKeyInSnapshot(s, n, called);
    } else if done < n {
      RowBeforeBroken(s, n, called, done);
    }
  }

  lemma {:induction false} InterruptedSettled(s: Saga, n: nat, a: Attempt)
    requires Keyed(s) && Reachable(s, Settled(n)) && a.world.answer == s.answer
    ensures DiesInsideCall(s, a, Upto(s, n)) <==> CallsAt(s, a, n)
    ensures Reachable(s, Next(s, Settled(n), a))
    ensures Interrupted(s, a, Upto(s, n)) == EffectsOf(s, Next(s, Settled(n), a))
  {
    NextIsReachable(s, Settled(n), a);
    var done := StopsBefore(s, a);
    WalkFromSettled(s, a.world, n, done);
    StopsAtFirst(s, a.world, n, done);
    if done < |s.actions| {
      SnapshotKeys(s, n);
      if done >= n && StopsAt(s, a.world, n, done) == done {
        UptoLedger(s, done);
      }
    }
  }

  lemma {:induction false} InterruptedProgress(s: Saga, p: Progress, a: Attempt)
    requires Keyed(s) && Reachable(s, p) && a.world.answer == s.answer
    ensures Reachable(s, Next(s, p, a))
    ensures Interrupted(s, a, EffectsOf(s, p)) == EffectsOf(s, Next(s, p, a))
    ensures Next(s, p, a).Broken? <==> p.Broken? || DiesInsideCall(s, a, EffectsOf(s, p))
  {
    NextIsReachable(s, p, a);
    match p
    case Broken(n, called) => InterruptedBroken(s, n, called, a);
    case Settled(n) => InterruptedSettled(s, n, a);
  }

  ghost function ProgressAfter(s: Saga, attempts: seq<Attempt>): (p: Progress)
    requires Keyed(s)
    ensures Reachable(s, p)
  {
    if attempts == [] then Settled(0)
    else
      var before := ProgressAfter(s, attempts[..|attempts| - 1]);
      NextIsReachable(s, before, attempts[|attempts| - 1]);
      Next(s, before, attempts[|attempts| - 1])
  }

  ghost predicate SameProviders(s: Saga, attempts: seq<Attempt>) {
    forall a | a in attempts :: a.world.answer == s.answer
  }

  /** One of the attempts died inside a call. */
  ghost predicate CutShort(s: Saga, attempts: seq<Attempt>) {
    exists k | 0 <= k < |attempts| :: DiesInsideCall(s, attempts[k], AfterAttempts(s, attempts[..k]))
  }

  lemma {:induction false} CutShortGrows(s: Saga, attempts: seq<Attempt>, a: Attempt)
    ensures CutShort(s, attempts + [a]) <==> CutShort(s, attempts) || DiesInsideCall(s, a, AfterAttempts(s, attempts))
  {
    var all := attempts + [a];
    assert all[..|attempts|] == attempts;
    assert forall k | 0 <= k < |attempts| :: all[k] == attempts[k] && all[..k] == attempts[..k];
    if k :| 0 <= k < |attempts| && DiesInsideCall(s, attempts[k], AfterAttempts(s, attempts[..k])) {
      assert DiesInsideCall(s, all[k], AfterAttempts(s, all[..k]));
    }
    if DiesInsideCall(s, a, AfterAttempts(s, attempts)) {
      assert DiesInsideCall(s, all[|attempts|], AfterAttempts(s, all[..|attempts|]));
    }
  }

  /**
   * Whatever attempts were interrupted, and wherever: rows were added for a prefix of the actions only, in one of the
   * known forms, and there is a broken-off call exactly when one of the attempts died inside a call.
   */
  lemma {:induction false} AttemptsProgress(s: Saga, attempts: seq<Attempt>)
    requires Keyed(s) && SameProviders(s, attempts)
    ensures AfterAttempts(s, attempts) == EffectsOf(s, ProgressAfter(s, attempts))
    ensures ProgressAfter(s, attempts).Broken? <==> CutShort(s, attempts)
  {
    if attempts != [] {
      var last := |attempts| - 1;
      AttemptsProgress(s, attempts[..last]);
      InterruptedProgress(s, ProgressAfter(s, attempts[..last]), attempts[last]);
      CutShortGrows(s, attempts[..last], attempts[last]);
      assert attempts == attempts[..last] + [attempts[last]];
    }
  }

  // ---- when the final attempt is broken off ----------------------------------------------------------

  /** What an attempt that finds these rows has asked the rate limiter when it comes to action i. */
  ghost function AsksFrom(s: Saga, e: Effects, i: nat): seq<WriteRequest>
    requires i <= |s.actions|
  {
    if i == 0 then []
    else AsksFrom(s, e, i - 1) + if s.actions[i - 1].key !in e.ledger then [Request(s, i - 1)] else []
  }

  /** An attempt that finds these rows is refused action i, when it comes to it. */
  ghost predicate RefusedFrom(s: Saga, world: World, e: Effects, i: nat)
    requires i < |s.actions|
  {
    && s.actions[i].key !in e.ledger
    && (s.provider !in world.providers || world.limits(AsksFrom(s, e, i), Request(s, i)))
  }

  /** Action i succeeds: by its row, or because the gateway lets it through and the provider accepts it. */
  ghost predicate WillSucceed(s: Saga, world: World, e: Effects, i: nat)
    requires i < |s.actions|
  {
    var key := s.actions[i].key;
    if key in e.ledger then IsSuccess(e.ledger[key].status)
      else !RefusedFrom(s, world, e, i) && s.answer(Request(s, i)).Accepted?
  }

  /** Some action has an unsettled row, and all actions before it succeed. */
  ghost predicate MeetsUnsettledRow(s: Saga, world: World, e: Effects) {
    exists i | 0 <= i < |s.actions| ::
      s.actions[i].key in e.ledger && Unsettled(e.ledger[s.actions[i].key].status) &&
      forall j | 0 <= j < i :: WillSucceed(s, world, e, j)
  }

  ghost predicate HasPendingRow(s: Saga, e: Effects) {
    exists i | 0 <= i < |s.actions| :: s.actions[i].key in e.ledger && e.ledger[s.actions[i].key].status.Pending?
  }

  /** No action has an unsettled row when the first attempt starts. */
  ghost predicate StartsSettled(s: Saga) {
    forall i | 0 <= i < |s.actions| && HasRow(s, i) :: !Unsettled(s.start.ledger[s.actions[i].key].status)
  }

  lemma {:induction false} AsksFromSettled(s: Saga, n: nat, i: nat)
    requires Keyed(s) && n <= |s.actions| && i <= |s.actions|
    ensures AsksFrom(s, Upto(s, n), i) == Asks(s, n, i)
  {
    UptoLedger(s, n);
    if i > 0 {
      AsksFromSettled(s, n, i - 1);
    }
  }

  lemma {:induction false} RefusedFromSettled(s: Saga, world: World, n: nat, i: nat)
    requires Keyed(s) && n <= |s.actions| && i < |s.actions|
    ensures RefusedFrom(s, world, Upto(s, n), i) <==> Refuses(s, world, n, i)
  {
    UptoLedger(s, n);
    AsksFromSettled(s, n, i);
  }

  lemma {:induction false} WillSucceedFromSettled(s: Saga, world: World, n: nat, i: nat)
    requires Keyed(s) && n <= |s.actions| && i < |s.actions|
    ensures WillSucceed(s, world, Upto(s, n), i) <==> IsSuccess(OutcomeAt(s, world, n, i).status)
  {
    UptoLedger(s, n);
    RefusedFromSettled(s, world, n, i);
  }

  lemma {:induction false} UnsettledRowAt(s: Saga, world: World, n: nat, i: nat)
    requires Keyed(s) && n <= |s.actions| && i < |s.actions|
    ensures Unsettled(OutcomeAt(s, world, n, i).status) <==>
            s.actions[i].key in Upto(s, n).ledger && Unsettled(Upto(s, n).ledger[s.actions[i].key].status)
    ensures Unsettled(OutcomeAt(s, world, n, i).status) ==> HasRow(s, i)
  {
    UptoLedger(s, n);
  }

  lemma {:induction false} BreaksFromSettled(s: Saga, world: World, n: nat)
    requires Keyed(s) && Reachable(s, Settled(n))
    ensures BreaksAt(s, world, n, |s.actions|) <==> MeetsUnsettledRow(s, world, Upto(s, n))
  {
    var f := StopsAt(s, world, n, |s.actions|);
    var e := Upto(s, n);
    StopsAtFirst(s, world, n, |s.actions|);
    forall i | 0 <= i < |s.actions|
      ensures WillSucceed(s, world, e, i) <==> IsSuccess(OutcomeAt(s, world, n, i).status)
      ensures Unsettled(OutcomeAt(s, world, n, i).status) <==>
              s.actions[i].key in e.ledger && Unsettled(e.ledger[s.actions[i].key].status)
    {
      WillSucceedFromSettled(s, world, n, i);
      UnsettledRowAt(s, world, n, i);
    }
    if i :| 0 <= i < |s.actions| && s.actions[i].key in e.ledger && Unsettled(e.ledger[s.actions[i].key].status)
            && forall j | 0 <= j < i :: WillSucceed(s, world, e, j) {
      assert i == f;
    }
  }

  lemma {:induction false} MeetsBrokenRow(s: Saga, world: World, n: nat, called: bool)
    requires Keyed(s) && Reachable(s, Broken(n, called))
    ensures MeetsUnsettledRow(s, world, EffectsOf(s, Broken(n, called)))
  {
    var e := EffectsOf(s, Broken(n, called));
    BrokenKeyInSnapshot(s, n, called);
    forall j | 0 <= j < n ensures WillSucceed(s, world, e, j) {
      RowBeforeBroken(s, n, called, j);
    }
  }

  lemma {:induction false} NoPendingWhenSettled(s: Saga, world: World, n: nat)
    requires Keyed(s) && Reachable(s, Settled(n)) && StartsSettled(s)
    ensures !HasPendingRow(s, Upto(s, n)) && !MeetsUnsettledRow(s, world, Upto(s, n))
  {
    forall i | 0 <= i < |s.actions| ensures !Unsettled(OutcomeAt(s, world, n, i).status) {
      UnsettledRowAt(s, world, n, i);
    }
    forall i | 0 <= i < |s.actions| && s.actions[i].key in Upto(s, n).ledger
      ensures !Unsettled(Upto(s, n).ledger[s.actions[i].key].status)
    {
      UnsettledRowAt(s, world, n, i);
    }
  }

  /**
   * The final attempt is broken off exactly when it meets a row that is neither a success nor a failure. An attempt
   * that died inside its gateway call leaves such a row, and then the final attempt calls nobody. Unless one was there
   * at the start already, this is the only way: it is broken off exactly when an earlier attempt died inside a call.
   */
  lemma {:induction false} ResumeIsBrokenOffExactly(s: Saga, attempts: seq<Attempt>, world: World)
    requires Keyed(s) && SameProviders(s, attempts) && world.answer == s.answer
    ensures var e := AfterAttempts(s, attempts);
            && (Final(s, world, e).raised <==> MeetsUnsettledRow(s, world, e))
            && (CutShort(s, attempts) ==> Final(s, world, e).raised && Final(s, world, e).effects == e)
            && (StartsSettled(s) ==> (Final(s, world, e).raised <==> CutShort(s, attempts)))
            && (StartsSettled(s) ==> (HasPendingRow(s, e) <==> CutShort(s, attempts)))
  {
    AttemptsProgress(s, attempts);
    assert s.actions[..|s.actions|] == s.actions;
    match ProgressAfter(s, attempts)
    case Broken(n, called) =>
      WalkFromBroken(s, world, n, called, |s.actions|);
      BrokenKeyInSnapshot(s, n, called);
      MeetsBrokenRow(s, world, n, called);
    case Settled(n) =>
      WalkFromSettled(s, world, n, |s.actions|);
      BreaksFromSettled(s, world, n);
      if StartsSettled(s) {
        NoPendingWhenSettled(s, world, n);
      }
  }

  // ---- resuming as one run ---------------------------------------------------------------------------

  /** The first of the first m actions that does not succeed in an attempt that finds these rows, or m. */
  ghost function StopsFrom(s: Saga, world: World, e: Effects, m: nat): (f: nat)
    requires m <= |s.actions|
    ensures f <= m
  {
    if m == 0 then 0
    else
      var before := StopsFrom(s, world, e, m - 1);
      if before < m - 1 then before else if WillSucceed(s, world, e, m - 1) then m else m - 1
  }

  ghost function Least(a: nat, b: nat): nat {
    if a <= b then a else b
  }

  /**
   * The first action at which an attempt from the start or one from these rows does not succeed is refused to both or
   * to neither.
   */
  ghost predicate RefusedAlike(s: Saga, world: World, e: Effects) {
    var total := |s.actions|;
    var f := Least(StopsFrom(s, world, s.start, total), StopsFrom(s, world, e, total));
    f < total ==> (RefusedFrom(s, world, s.start, f) <==> RefusedFrom(s, world, e, f))
  }

  lemma {:induction false} StopsFromSettled(s: Saga, world: World, n: nat, m: nat)
    requires Keyed(s) && n <= |s.actions| && m <= |s.actions|
    ensures StopsFrom(s, world, Upto(s, n), m) == StopsAt(s, world, n, m)
  {
    if m > 0 {
      StopsFromSettled(s, world, n, m - 1);
      WillSucceedFromSettled(s, world, n, m - 1);
    }
  }

  /** The same, of the rows of the first n actions. */
  ghost predicate RefusesAlike(s: Saga, world: World, n: nat) {
    var total := |s.actions|;
    var f := Least(StopsAt(s, world, 0, total), StopsAt(s, world, n, total));
    f < total ==> (Refuses(s, world, 0, f) <==> Refuses(s, world, n, f))
  }

  lemma {:induction false} AlikeFromSettled(s: Saga, world: World, n: nat)
    requires Keyed(s) && n <= |s.actions|
    ensures RefusedAlike(s, world, Upto(s, n)) <==> RefusesAlike(s, world, n)
  {
    var total := |s.actions|;
    StopsFromSettled(s, world, 0, total);
    StopsFromSettled(s, world, n, total);
    var f := Least(StopsAt(s, world, 0, total), StopsAt(s, world, n, total));
    StopsAtFirst(s, world, 0, total);
    if f < total {
      RefusedFromSettled(s, world, 0, f);
      RefusedFromSettled(s, world, n, f);
    }
  }

  /**
   * Up to the first stop of either attempt all outcomes are alike, and at the stop when it is refused to both or
   * neither.
   */
  lemma {:induction false} SameStop(s: Saga, world: World, n: nat)
    requires n <= |s.actions| && RefusesAlike(s, world, n)
    ensures var total := |s.actions|;
            && StopsAt(s, world, n, total) == StopsAt(s, world, 0, total)
            && forall i | 0 <= i < total && i <= StopsAt(s, world, 0, total) ::
                 OutcomeAt(s, world, n, i) == OutcomeAt(s, world, 0, i)
  {
    StopsAtFirst(s, world, 0, |s.actions|);
    StopsAtFirst(s, world, n, |s.actions|);
  }

  /** At the first stop of either attempt, the one that is refused and the one that is not have different outcomes. */
  lemma {:induction false} RefusedDiffers(s: Saga, world: World, n: nat)
    requires Keyed(s) && n <= |s.actions| && !RefusesAlike(s, world, n)
    ensures var total := |s.actions|;
            var f := Least(StopsAt(s, world, 0, total), StopsAt(s, world, n, total));
            && f < total
            && OutcomeAt(s, world, n, f) != OutcomeAt(s, world, 0, f)
            && (BreaksAt(s, world, 0, total) ==> f < StopsAt(s, world, 0, total))
            && (BreaksAt(s, world, n, total) ==> f < StopsAt(s, world, n, total))
  {
    StopsAtFirst(s, world, 0, |s.actions|);
    StopsAtFirst(s, world, n, |s.actions|);
  }

  /** When both stop alike, they end with the same rows. */
  lemma {:induction false} SameRows(s: Saga, world: World, n: nat)
    requires Keyed(s) && Reachable(s, Settled(n)) && world.answer == s.answer
    requires RefusesAlike(s, world, n)
    ensures var total := |s.actions|;
            && RowsAfter(s, world, n, total) <= total && RowsAfter(s, world, 0, total) <= total
            && Upto(s, RowsAfter(s, world, n, total)) == Upto(s, RowsAfter(s, world, 0, total))
  {
    SameStop(s, world, n);
    StopsAtFirst(s, world, n, |s.actions|);
  }

  /** Equal but for which results are marked as replayed. */
  ghost predicate SameSummary(a: ExecutionResult, b: ExecutionResult) {
    && a.status == b.status && a.planStatus == b.planStatus
    && a.succeededCount == b.succeededCount && a.failedCount == b.failedCount
    && a.rollbackStatus == b.rollbackStatus && a.rollbackRefs == b.rollbackRefs
  }

  lemma {:induction false} OutcomesGiveCounts(a: seq<ActionResult>, b: seq<ActionResult>, n: nat)
    requires Outcomes(a) == Outcomes(b) && n <= |a|
    ensures |a| == |b|
    ensures SucceededCount(a[..n]) == SucceededCount(b[..n]) && FailedCount(a[..n]) == FailedCount(b[..n])
    ensures FirstFailure(a[..n]) == FirstFailure(b[..n]) && SuccessRefs(a[..n]) == SuccessRefs(b[..n])
  {
    assert |Outcomes(a)| == |a| && |Outcomes(b)| == |b|;
    if n > 0 {
      OutcomesGiveCounts(a, b, n - 1);
      assert a[..n][..n - 1] == a[..n - 1] && b[..n][..n - 1] == b[..n - 1];
      assert Outcomes(a)[n - 1] == Outcomes(b)[n - 1];
    }
  }

  lemma {:induction false} OutcomesGiveSummary(a: seq<ActionResult>, b: seq<ActionResult>)
    requires Outcomes(a) == Outcomes(b)
    ensures SameSummary(Summarize(a), Summarize(b))
  {
    OutcomesGiveCounts(a, b, |a|);
    assert a[..|a|] == a && b[..|b|] == b;
    OutcomesGiveCounts(a, b, FirstFailure(a));
  }

  lemma {:induction false} ResumedOutcomes(s: Saga, world: World, n: nat)
    requires Keyed(s) && Reachable(s, Settled(n)) && world.answer == s.answer
    ensures var total := |s.actions|;
            var resumed := Outcomes(Final(s, world, Upto(s, n)).results);
            && WalkedTo(s, world, n, total, Final(s, world, Upto(s, n)))
            && |resumed| == (if BreaksAt(s, world, n, total) then StopsAt(s, world, n, total) else total)
            && (forall i | 0 <= i < |resumed| :: resumed[i] == ExpectedOutcome(s, world, n, total, i))
  {
    assert s.actions[..|s.actions|] == s.actions;
    WalkFromSettled(s, world, n, |s.actions|);
  }

  lemma {:induction false} SettledAttemptDiffers(s: Saga, world: World, n: nat)
    requires Keyed(s) && Reachable(s, Settled(n)) && world.answer == s.answer
    requires !RefusesAlike(s, world, n)
    ensures Outcomes(Final(s, world, Upto(s, n)).results) != Outcomes(Final(s, world, s.start).results)
  {
    var f := Least(StopsAt(s, world, 0, |s.actions|), StopsAt(s, world, n, |s.actions|));
    RefusedDiffers(s, world, n);
    ResumedOutcomes(s, world, n);
    ResumedOutcomes(s, world, 0);
    assert Outcomes(Final(s, world, Upto(s, n)).results)[f] != Outcomes(Final(s, world, s.start).results)[f];
  }

  lemma {:induction false} SettledAttemptAgrees(s: Saga, world: World, n: nat)
    requires Keyed(s) && Reachable(s, Settled(n)) && world.answer == s.answer
    requires RefusesAlike(s, world, n)
    ensures SameEnd(Final(s, world, Upto(s, n)), Final(s, world, s.start))
  {
    ResumedOutcomes(s, world, n);
    ResumedOutcomes(s, world, 0);
    WalksEndAlike(s, world, n, Final(s, world, Upto(s, n)), Final(s, world, s.start));
  }

  lemma {:induction false} WalksEndAlike(s: Saga, world: World, n: nat, a: Walk, b: Walk)
    requires Keyed(s) && Reachable(s, Settled(n)) && world.answer == s.answer
    requires WalkedTo(s, world, n, |s.actions|, a) && WalkedTo(s, world, 0, |s.actions|, b)
    requires RefusesAlike(s, world, n)
    ensures SameEnd(a, b)
  {
    SameRows(s, world, n);
    SameOutcomes(s, world, n, a, b);
    OutcomesGiveSummary(a.results, b.results);
  }

  lemma {:induction false} SameOutcomes(s: Saga, world: World, n: nat, a: Walk, b: Walk)
    requires n <= |s.actions|
    requires WalkedTo(s, world, n, |s.actions|, a) && WalkedTo(s, world, 0, |s.actions|, b)
    requires RefusesAlike(s, world, n)
    ensures a.raised == b.raised && Outcomes(a.results) == Outcomes(b.results)
  {
    SameStop(s, world, n);
    StopsAtFirst(s, world, n, |s.actions|);
    forall i | 0 <= i < |a.results| ensures i < |b.results| && Outcomes(a.results)[i] == Outcomes(b.results)[i] {
      assert ExpectedOutcome(s, world, n, |s.actions|, i) == ExpectedOutcome(s, world, 0, |s.actions|, i);
    }
  }

  /** Two attempts that end alike: broken off or not, with the same outcomes, summary, rows and provider calls. */
  ghost predicate SameEnd(a: Walk, b: Walk) {
    && a.raised == b.raised && a.effects == b.effects
    && Outcomes(a.results) == Outcomes(b.results)
    && SameSummary(Summarize(a.results), Summarize(b.results))
  }

  /**
   * Crash and resume refines one uninterrupted run, whatever rows the plan has at the start. After any number of
   * attempts, each stopped anywhere but inside a call, an attempt that is not interrupted gives every action the
   * outcome of an uninterrupted attempt in the same world exactly when the first action that does not succeed in one of
   * them is refused to both or to neither. Then the summary, the ledger and the sequence of all provider calls over all
   * attempts are those of the uninterrupted attempt as well. The two ask the rate limiter different questions, because
   * settled rows are replayed without asking.
   */
  lemma {:induction false} CrashResumeRefinesOneRun(s: Saga, attempts: seq<Attempt>, world: World)
    requires Keyed(s) && SameProviders(s, attempts) && world.answer == s.answer
    requires !CutShort(s, attempts)
    ensures var e := AfterAttempts(s, attempts);
            var resumed, once := Final(s, world, e), Final(s, world, s.start);
            && (Outcomes(resumed.results) == Outcomes(once.results) <==> RefusedAlike(s, world, e))
            && (RefusedAlike(s, world, e) ==> SameEnd(resumed, once))
  {
    AttemptsProgress(s, attempts);
    var n := ProgressAfter(s, attempts).n;
    AlikeFromSettled(s, world, n);
    if RefusesAlike(s, world, n) {
      SettledAttemptAgrees(s, world, n);
    } else {
      SettledAttemptDiffers(s, world, n);
    }
  }

  // ---- what the condition comes to for a given limiter ------------------------------------------------

  /** The uninterrupted attempt stops at an action that is refused to it, but not to an attempt from these rows. */
  ghost predicate OnlyOnceIsRefused(s: Saga, world: World, e: Effects) {
    var f := StopsFrom(s, world, s.start, |s.actions|);
    f < |s.actions| && RefusedFrom(s, world, s.start, f) && !RefusedFrom(s, world, e, f)
  }

  lemma {:induction false} AsksSplit(s: Saga, n: nat, i: nat)
    requires n <= i <= |s.actions|
    ensures Asks(s, 0, i) == Asks(s, 0, n) + Asks(s, n, i)
  {
    if i == n {
      NothingAsked(s, n, n);
    } else {
      AsksSplit(s, n, i - 1);
    }
  }

  lemma {:induction false} NothingAsked(s: Saga, n: nat, i: nat)
    requires i <= n && i <= |s.actions|
    ensures Asks(s, n, i) == []
  {
    if i > 0 {
      NothingAsked(s, n, i - 1);
    }
  }

  lemma {:induction false} MoreAskedMoreRefused(s: Saga, world: World, n: nat, i: nat)
    requires n <= |s.actions| && i < |s.actions| && NeverRelaxes(world)
    ensures Refuses(s, world, n, i) ==> Refuses(s, world, 0, i)
  {
    if Refuses(s, world, n, i) {
      AsksSplit(s, n, i);
    }
  }

  /** For a limiter that never relaxes, as a fixed window: only the uninterrupted attempt can be refused more. */
  lemma {:induction false} AlikeUnderFixedWindow(s: Saga, attempts: seq<Attempt>, world: World)
    requires Keyed(s) && SameProviders(s, attempts) && !CutShort(s, attempts) && NeverRelaxes(world)
    ensures var e := AfterAttempts(s, attempts);
            RefusedAlike(s, world, e) <==> !OnlyOnceIsRefused(s, world, e)
  {
    AttemptsProgress(s, attempts);
    var n := ProgressAfter(s, attempts).n;
    var total := |s.actions|;
    AlikeFromSettled(s, world, n);
    StopsFromSettled(s, world, 0, total);
    OnlyOnceRefusedAt(s, world, n);
    if StopsAt(s, world, 0, total) < total {
      RefusedFromSettled(s, world, 0, StopsAt(s, world, 0, total));
      RefusedFromSettled(s, world, n, StopsAt(s, world, 0, total));
    }
  }

  lemma {:induction false} OnlyOnceRefusedAt(s: Saga, world: World, n: nat)
    requires n <= |s.actions| && NeverRelaxes(world)
    ensures var f := StopsAt(s, world, 0, |s.actions|);
            RefusesAlike(s, world, n) <==>
            !(f < |s.actions| && Refuses(s, world, 0, f) && !Refuses(s, world, n, f))
  {
    var total := |s.actions|;
    var f := Least(StopsAt(s, world, 0, total), StopsAt(s, world, n, total));
    StopsAtFirst(s, world, 0, total);
    StopsAtFirst(s, world, n, total);
    if RefusesAlike(s, world, n) {
      SameStop(s, world, n);
    } else {
      MoreAskedMoreRefused(s, world, n, f);
    }
  }

  /** What the limiter says does not depend on what it was asked before. */
  ghost predicate CountsNothing(world: World) {
    forall a, b, r :: world.limits(a, r) <==> world.limits(b, r)
  }

  /** An action that was settled after the start would be refused to an attempt from the start. */
  ghost predicate RefusesSettledAction(s: Saga, world: World, e: Effects) {
    exists i | 0 <= i < |s.actions| :: s.actions[i].key in e.ledger && RefusedFrom(s, world, s.start, i)
  }

  lemma {:induction false} RefusesExactly(s: Saga, world: World, n: nat)
    requires Keyed(s) && n <= |s.actions|
    ensures RefusesSettledAction(s, world, Upto(s, n)) <==> exists i | 0 <= i < n :: Refuses(s, world, 0, i)
  {
    UptoLedger(s, n);
    forall i | 0 <= i < |s.actions| ensures RefusedFrom(s, world, s.start, i) <==> Refuses(s, world, 0, i) {
      RefusedFromSettled(s, world, 0, i);
    }
    if i :| 0 <= i < |s.actions| && s.actions[i].key in Upto(s, n).ledger && RefusedFrom(s, world, s.start, i) {
      assert Refuses(s, world, 0, i);
    }
    if i :| 0 <= i < n && Refuses(s, world, 0, i) {
      assert s.actions[i].key in Upto(s, n).ledger;
    }
  }

  /** For a limiter that does not count, the two agree exactly when no settled action would be refused. */
  lemma {:induction false} AlikeWithoutCounting(s: Saga, attempts: seq<Attempt>, world: World)
    requires Keyed(s) && SameProviders(s, attempts) && !CutShort(s, attempts) && CountsNothing(world)
    ensures var e := AfterAttempts(s, attempts);
            RefusedAlike(s, world, e) <==> !RefusesSettledAction(s, world, e)
  {
    AttemptsProgress(s, attempts);
    var n := ProgressAfter(s, attempts).n;
    AlikeFromSettled(s, world, n);
    RefusesExactly(s, world, n);
    SettledRefusalDecides(s, world, n);
  }

  lemma {:induction false} SettledRefusalDecides(s: Saga, world: World, n: nat)
    requires Reachable(s, Settled(n)) && CountsNothing(world)
    ensures RefusesAlike(s, world, n) <==> forall i | 0 <= i < n :: !Refuses(s, world, 0, i)
  {
    var total := |s.actions|;
    StopsAtFirst(s, world, 0, total);
    StopsAtFirst(s, world, n, total);
    forall i | n <= i < total ensures Refuses(s, world, n, i) <==> Refuses(s, world, 0, i) {
      assert world.limits(Asks(s, n, i), Request(s, i)) <==> world.limits(Asks(s, 0, i), Request(s, i));
    }
    if i :| 0 <= i < n && Refuses(s, world, 0, i) {
      assert StopsAt(s, world, 0, total) <= i;
    }
  }

  // ---- any two points of a history of attempts -------------------------------------------------------

  /** The same saga, taken up after some attempts. */
  ghost function TakenUp(s: Saga, attempts: seq<Attempt>): Saga {
    s.(start := AfterAttempts(s, attempts))
  }

  lemma {:induction false} AfterOneMore(s: Saga, attempts: seq<Attempt>, a: Attempt)
    ensures AfterAttempts(s, attempts + [a]) == Interrupted(s, a, AfterAttempts(s, attempts))
  {
    assert (attempts + [a])[..|attempts|] == attempts;
  }

  /** An attempt works on the effects it finds; where the saga once started does not matter to it. */
  lemma {:induction false} InterruptedAlike(s: Saga, start: Effects, a: Attempt, effects: Effects)
    ensures Interrupted(s.(start := start), a, effects) == Interrupted(s, a, effects)
  {
  }

  lemma {:induction false} AttemptsCompose(s: Saga, before: seq<Attempt>, attempts: seq<Attempt>)
    ensures AfterAttempts(TakenUp(s, before), attempts) == AfterAttempts(s, before + attempts)
  {
    if attempts == [] {
      assert before + [] == before;
    } else {
      var earlier, last := attempts[..|attempts| - 1], attempts[|attempts| - 1];
      AttemptsCompose(s, before, earlier);
      assert attempts == earlier + [last] && before + attempts == (before + earlier) + [last];
      AfterOneMore(TakenUp(s, before), earlier, last);
      AfterOneMore(s, before + earlier, last);
      InterruptedAlike(s, AfterAttempts(s, before), last, AfterAttempts(s, before + earlier));
    }
  }

  lemma {:induction false} RowsOfRun(s: Saga, p: Progress, i: nat)
    requires Keyed(s) && Reachable(s, p) && i < |s.actions| && s.actions[i].key in EffectsOf(s, p).ledger
    ensures EffectsOf(s, p).ledger[s.actions[i].key].runId == s.runId
  {
    UptoLedger(s, p.n);
    if p.Settled? || i != p.n {
      assert p.Broken? ==> s.actions[i].key != s.actions[p.n].key;
      assert Upto(s, p.n).ledger[s.actions[i].key] == RowOf(s, i);
    }
  }

  lemma {:induction false} TakenUpIsKeyed(s: Saga, attempts: seq<Attempt>)
    requires Keyed(s) && SameProviders(s, attempts)
    ensures Keyed(TakenUp(s, attempts))
  {
    AttemptsProgress(s, attempts);
    var later := TakenUp(s, attempts);
    forall i | 0 <= i < |later.actions| && HasRow(later, i)
      ensures later.start.ledger[later.actions[i].key].runId == s.runId {
      RowsOfRun(s, ProgressAfter(s, attempts), i);
    }
  }

  /**
   * Going on from any point refines stopping there: the attempts that come after `before` leave the outcomes of a final
   * attempt as they were exactly when the first action that does not succeed, then or now, is refused both times or
   * neither time.
   */
  lemma {:induction false} LaterAttemptsRefine(s: Saga, before: seq<Attempt>, attempts: seq<Attempt>, world: World)
    requires Keyed(s) && SameProviders(s, before) && SameProviders(s, attempts) && world.answer == s.answer
    requires !CutShort(TakenUp(s, before), attempts)
    ensures var e0, e := AfterAttempts(s, before), AfterAttempts(s, before + attempts);
            && (Outcomes(Final(s, world, e).results) == Outcomes(Final(s, world, e0).results) <==>
                RefusedAlike(TakenUp(s, before), world, e))
            && (RefusedAlike(TakenUp(s, before), world, e) ==>
                SameEnd(Final(s, world, e), Final(s, world, e0)))
  {
    TakenUpIsKeyed(s, before);
    AttemptsCompose(s, before, attempts);
    CrashResumeRefinesOneRun(TakenUp(s, before), attempts, world);
  }

  // ---- at most once --------------------------------------------------------------------------------

  lemma {:induction false} WalkKeepsAtMostOnce(c: Context, actions: seq<Action>, start: Effects)
    requires AtMostOnce(start)
    ensures AtMostOnce(WalkActions(c, actions, start).effects)
  {
    if actions != [] {
      var last := |actions| - 1;
      WalkKeepsAtMostOnce(c, actions[..last], start);
      var before := WalkActions(c, actions[..last], start);
      InvokeKeepsAtMostOnce(before.effects, before.asked, RequestFor(c, actions[last]), c.world);
    }
  }

  lemma {:induction false} InterruptedKeepsAtMostOnce(s: Saga, a: Attempt, effects: Effects)
    requires AtMostOnce(effects)
    ensures AtMostOnce(Interrupted(s, a, effects))
  {
    var c := ContextFrom(s, a.world, effects);
    var done := StopsBefore(s, a);
    WalkKeepsAtMostOnce(c, s.actions[..done], effects);
    if done < |s.actions| {
      var before := WalkActions(c, s.actions[..done], effects);
      InvokeKeepsAtMostOnce(before.effects, before.asked, RequestFor(c, s.actions[done]), c.world);
    }
  }

  /**
   * Over all attempts, the interrupted ones and the last, no provider is called twice for the same key. Nothing is
   * assumed of the keys, of the worlds, or of where attempts stop.
   */
  lemma {:induction false} AtMostOnceOverAllAttempts(s: Saga, attempts: seq<Attempt>, world: World)
    requires AtMostOnce(s.start)
    ensures AtMostOnce(AfterAttempts(s, attempts))
    ensures AtMostOnce(Final(s, world, AfterAttempts(s, attempts)).effects)
  {
    if attempts != [] {
      var last := |attempts| - 1;
      AtMostOnceOverAllAttempts(s, attempts[..last], world);
      InterruptedKeepsAtMostOnce(s, attempts[last], AfterAttempts(s, attempts[..last]));
    }
    WalkKeepsAtMostOnce(ContextFrom(s, world, AfterAttempts(s, attempts)), s.actions, AfterAttempts(s, attempts));
  }
}
