/** Stability of a benchmark: repeated attempts, windows of four, and the pass rates over them. */
module PassWindows {
  import opened Wrappers
  import opened Counting

  const WINDOW_SIZE: nat := 4

  /** What one attempt came to: the gate's verdict, or an exception. */
  datatype GateOutcome = Verdict(releaseBlocked: bool, runStatus: string) | Raised

  datatype Status = Passed | Failed | Errored

  datatype Attempt = Attempt(index: nat, status: Status)

  datatype Window = Window(index: nat, attempts: seq<nat>, anySuccess: bool, allSuccess: bool, successes: nat)

  datatype Report = Report(
    windows: seq<Window>, tail: nat, successes: nat, failures: nat, errors: nat, successAt1: real, passAt4: real,
    passPow4: real)

  function StatusOf(outcome: GateOutcome): Status {
    match outcome
    case Raised => Errored
    case Verdict(blocked, runStatus) => if !blocked then Passed else if runStatus != "error" then Failed else Errored
  }

  function AttemptsOf(outcomes: seq<GateOutcome>): seq<Attempt> {
    seq(|outcomes|, i requires 0 <= i < |outcomes| => Attempt(i + 1, StatusOf(outcomes[i])))
  }

  predicate IsPassed(a: Attempt) {
    a.status.Passed?
  }

  predicate IsFailed(a: Attempt) {
    a.status.Failed?
  }

  predicate IsErrored(a: Attempt) {
    a.status.Errored?
  }

  /** A run passes unless its release is blocked, and then fails unless it was an error; so is one that raised. */
  lemma {:induction false} StatusExactly(outcomes: seq<GateOutcome>, i: nat)
    requires i < |outcomes|
    ensures |AttemptsOf(outcomes)| == |outcomes| && AttemptsOf(outcomes)[i].index == i + 1
    ensures var status, outcome := AttemptsOf(outcomes)[i].status, outcomes[i];
            && (status.Passed? <==> outcome.Verdict? && !outcome.releaseBlocked)
            && (status.Failed? <==> outcome.Verdict? && outcome.releaseBlocked && outcome.runStatus != "error")
            && (status.Errored? <==>
                outcome.Raised? || (outcome.releaseBlocked && outcome.runStatus == "error"))
  {
  }

  function GroupOf(attempts: seq<Attempt>, w: nat): seq<Attempt>
    requires 4 * w + 4 <= |attempts|
  {
    attempts[4 * w..4 * w + 4]
  }

  ghost predicate Describes(window: Window, attempts: seq<Attempt>, w: nat)
    requires 4 * w + 4 <= |attempts|
  {
    var group := GroupOf(attempts, w);
    && window.index == w + 1
    && window.attempts == [group[0].index, group[1].index, group[2].index, group[3].index]
    && window.successes == CountBy(group, IsPassed)
    && (window.anySuccess <==> exists i | 0 <= i < 4 :: IsPassed(group[i]))
    && (window.allSuccess <==> forall i | 0 <= i < 4 :: IsPassed(group[i]))
  }

  lemma {:induction false} CountOfFour(group: seq<Attempt>)
    requires |group| == 4
    ensures CountBy(group, IsPassed) == (if IsPassed(group[0]) then 1 else 0) + (if IsPassed(group[1]) then 1 else 0)
                                        + (if IsPassed(group[2]) then 1 else 0) + (if IsPassed(group[3]) then 1 else 0)
  {
    assert group[..3][..2] == group[..2] && group[..2][..1] == group[..1] && group[..1][..0] == [];
    assert CountBy(group[..1], IsPassed) == if IsPassed(group[0]) then 1 else 0;
    assert CountBy(group[..2], IsPassed) == CountBy(group[..1], IsPassed) + if IsPassed(group[1]) then 1 else 0;
    assert CountBy(group[..3], IsPassed) == CountBy(group[..2], IsPassed) + if IsPassed(group[2]) then 1 else 0;
  }

  /** `_build_windows`: one window for every full group of four. */
  method BuildWindows(attempts: seq<Attempt>) returns (windows: seq<Window>)
    ensures 4 * |windows| + |attempts| % 4 == |attempts|
    ensures forall w | 0 <= w < |windows| :: Describes(windows[w], attempts, w)
  {
    windows := [];
    for w := 0 to |attempts| / WINDOW_SIZE
      invariant |windows| == w
      invariant forall v | 0 <= v < w :: Describes(windows[v], attempts, v)
    {
      var group := attempts[w * WINDOW_SIZE..w * WINDOW_SIZE + WINDOW_SIZE];
      assert group == GroupOf(attempts, w);
      var successes := 0;
      for i := 0 to |group|
        invariant successes == CountBy(group[..i], IsPassed)
      {
        assert group[..i + 1][..i] == group[..i];
        if IsPassed(group[i]) {
          successes := successes + 1;
        }
      }
      assert group[..|group|] == group;
      CountOfFour(group);
      windows := windows + [Window(w + 1, seq(4, i requires 0 <= i < 4 => group[i].index), successes > 0,
                                   successes == WINDOW_SIZE, successes)];
    }
  }

  predicate HasAny(w: Window) {
    w.anySuccess
  }

  predicate HasAll(w: Window) {
    w.allSuccess
  }

  function Rate(count: nat, total: nat, round: real -> real): real
    requires total > 0
  {
    round(count as real / total as real)
  }

  /** The counts and rates of a report; None when fewer than four runs were asked for. */
  method StabilityReport(outcomes: seq<GateOutcome>, round: real -> real) returns (report: Option<Report>)
    ensures report.None? <==> |outcomes| < 4
    ensures report.Some? ==>
              var r := report.value;
              var attempts := AttemptsOf(outcomes);
              && 4 * |r.windows| + r.tail == |outcomes| && r.tail < 4
              && (forall w | 0 <= w < |r.windows| :: Describes(r.windows[w], attempts, w))
              && r.successes == CountBy(attempts, IsPassed)
              && r.failures == CountBy(attempts, IsFailed)
              && r.errors == CountBy(attempts, IsErrored)
              && r.successes + r.failures + r.errors == |outcomes|
              && |r.windows| > 0
              && r.successAt1 == Rate(r.successes, |outcomes|, round)
              && r.passAt4 == Rate(CountBy(r.windows, HasAny), |r.windows|, round)
              && r.passPow4 == Rate(CountBy(r.windows, HasAll), |r.windows|, round)
  {
    if |outcomes| < WINDOW_SIZE {
      return None;
    }
    var attempts := MakeAttempts(outcomes);
    var successes, failures, errors := CountAttempts(attempts);
    var windows := BuildWindows(attempts);
    var any := CountWindows(windows, HasAny);
    var all := CountWindows(windows, HasAll);
    report := Some(Report(windows, |attempts| % WINDOW_SIZE, successes, failures, errors,
                          Rate(successes, |attempts|, round), Rate(any, |windows|, round),
                          Rate(all, |windows|, round)));
  }

  method MakeAttempts(outcomes: seq<GateOutcome>) returns (attempts: seq<Attempt>)
    ensures attempts == AttemptsOf(outcomes)
  {
    attempts := [];
    for i := 0 to |outcomes|
      invariant attempts == AttemptsOf(outcomes)[..i]
    {
      attempts := attempts + [Attempt(i + 1, StatusOf(outcomes[i]))];
    }
  }

  method CountAttempts(attempts: seq<Attempt>) returns (successes: nat, failures: nat, errors: nat)
    ensures successes == CountBy(attempts, IsPassed) && failures == CountBy(attempts, IsFailed)
            && errors == CountBy(attempts, IsErrored)
    ensures successes + failures + errors == |attempts|
  {
    successes, failures, errors := 0, 0, 0;
    for i := 0 to |attempts|
      invariant successes == CountBy(attempts[..i], IsPassed)
      invariant failures == CountBy(attempts[..i], IsFailed)
      invariant errors == CountBy(attempts[..i], IsErrored)
      invariant successes + failures + errors == i
    {
      assert attempts[..i + 1][..i] == attempts[..i];
      match attempts[i].status {
        case Passed => successes := successes + 1;
        case Failed => failures := failures + 1;
        case Errored => errors := errors + 1;
      }
    }
    assert attempts[..|attempts|] == attempts;
  }

  method CountWindows(windows: seq<Window>, holds: Window -> bool) returns (count: nat)
    ensures count == CountBy(windows, holds)
  {
    count := 0;
    for w := 0 to |windows|
      invariant count == CountBy(windows[..w], holds)
    {
      assert windows[..w + 1][..w] == windows[..w];
      if holds(windows[w]) {
        count := count + 1;
      }
    }
    assert windows[..|windows|] == windows;
  }

  /**
   * Over full windows: a window where all pass holds four successes, and no success lies outside a window where any
   * passes.
   */
  lemma {:induction false} WindowsBoundSuccesses(attempts: seq<Attempt>, windows: seq<Window>)
    requires 4 * |windows| <= |attempts| && forall w | 0 <= w < |windows| :: Describes(windows[w], attempts, w)
    ensures 4 * CountBy(windows, HasAll) <= CountBy(attempts[..4 * |windows|], IsPassed) <= 4 * CountBy(windows, HasAny)
  {
    if windows == [] {
      assert attempts[..0] == [];
    } else {
      var last := |windows| - 1;
      WindowsBoundSuccesses(attempts, windows[..last]);
      assert Describes(windows[last], attempts, last);
      assert attempts[..4 * |windows|] == attempts[..4 * last] + GroupOf(attempts, last);
      CountConcat(attempts[..4 * last], GroupOf(attempts, last), IsPassed);
      CountOfFour(GroupOf(attempts, last));
    }
  }

  /** Counting the tail as well, there are at most that many more successes. */
  lemma {:induction false} SuccessesBetweenWindows(attempts: seq<Attempt>, windows: seq<Window>)
    requires 4 * |windows| + |attempts| % 4 == |attempts|
             && forall w | 0 <= w < |windows| :: Describes(windows[w], attempts, w)
    ensures 4 * CountBy(windows, HasAll) <= CountBy(attempts, IsPassed) <= 4 * CountBy(windows, HasAny) + |attempts| % 4
  {
    WindowsBoundSuccesses(attempts, windows);
    var full := 4 * |windows|;
    assert attempts == attempts[..full] + attempts[full..];
    CountConcat(attempts[..full], attempts[full..], IsPassed);
  }

  ghost predicate Monotone(round: real -> real) {
    forall x: real, y: real :: x <= y ==> round(x) <= round(y)
  }

  lemma {:induction false} RateMonotone(a: nat, b: nat, total: nat, other: nat, round: real -> real)
    requires Monotone(round) && total > 0 && other > 0 && a * other <= b * total
    ensures Rate(a, total, round) <= Rate(b, other, round)
  {
    assert a as real * other as real <= b as real * total as real;
    assert a as real / total as real <= b as real / other as real;
  }

  /** Without a tail, however rates are rounded: all-of-four is at most one-of-one, which is at most any-of-four. */
  lemma {:induction false} RatesAreOrdered(attempts: seq<Attempt>, windows: seq<Window>, round: real -> real)
    requires Monotone(round) && windows != [] && 4 * |windows| == |attempts|
    requires forall w | 0 <= w < |windows| :: Describes(windows[w], attempts, w)
    ensures Rate(CountBy(windows, HasAll), |windows|, round) <= Rate(CountBy(attempts, IsPassed), |attempts|, round)
    ensures Rate(CountBy(attempts, IsPassed), |attempts|, round) <= Rate(CountBy(windows, HasAny), |windows|, round)
  {
    SuccessesBetweenWindows(attempts, windows);
    Scaled(CountBy(windows, HasAll), CountBy(attempts, IsPassed), |windows|);
    Scaled(CountBy(attempts, IsPassed), CountBy(windows, HasAny), |windows|);
    RateMonotone(CountBy(windows, HasAll), CountBy(attempts, IsPassed), |windows|, |attempts|, round);
    RateMonotone(CountBy(attempts, IsPassed), CountBy(windows, HasAny), |attempts|, |windows|, round);
  }

  lemma {:induction false} Scaled(a: nat, b: nat, n: nat)
    ensures 4 * a <= b ==> a * (4 * n) <= b * n
    ensures a <= 4 * b ==> a * n <= b * (4 * n)
  {
    assert a * (4 * n) == (4 * a) * n && b * (4 * n) == (4 * b) * n;
  }
}
