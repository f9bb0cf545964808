/** Timing percentiles of a benchmark, by nearest rank, overall and per workflow node. */
module OrderStatistics {
  import opened Wrappers
  import opened Counting
  import opened Sorting

  datatype Stats = Stats(count: nat, min: int, p50: int, p95: int, p99: int, max: int, mean: real)

  datatype StageTiming = StageTiming(node: string, total: int, attempts: int)

  datatype CaseTiming = CaseTiming(total: int, stages: seq<StageTiming>)

  datatype StageEntry = StageEntry(node: string, retryCases: nat, stats: Stats)

  datatype TimingSummary = TimingSummary(caseCount: nat, overall: Option<Stats>, stages: seq<StageEntry>)

  function Itself(x: int): int {
    x
  }

  function Ordered(values: seq<int>): seq<int> {
    SortBy(values, Itself)
  }

  function Ceil(x: real): int {
    if x.Floor as real == x then x.Floor else x.Floor + 1
  }

  /** The rank of a share of the samples, from one up to their number. */
  function RankAt(share: real, count: nat): int {
    var rank := Ceil(share);
    if rank > count then if count < 1 then 1 else count else if rank < 1 then 1 else rank
  }

  function RankOf(percentile: real, count: nat): int {
    RankAt(percentile * count as real, count)
  }

  /** `nearest_rank_percentile`; None when there is no sample. */
  function NearestRank(values: seq<int>, percentile: real): Option<int> {
    if values == [] then None
    else
      SortBySorts(values, Itself);
      Some(Ordered(values)[RankOf(percentile, |values|) - 1])
  }

  function Sum(values: seq<int>): int {
    if values == [] then 0 else Sum(values[..|values| - 1]) + values[|values| - 1]
  }

  /** `_build_stats`, with any rounding of the mean; None when there is no sample. */
  function StatsOf(values: seq<int>, round: real -> real): Option<Stats> {
    if values == [] then None
    else
      SortBySorts(values, Itself);
      var ordered := Ordered(values);
      Some(Stats(|ordered|, ordered[0], NearestRank(ordered, 0.50).value, NearestRank(ordered, 0.95).value,
                 NearestRank(ordered, 0.99).value, ordered[|ordered| - 1],
                 round(Sum(ordered) as real / |ordered| as real)))
  }

  // ---- the laws of a percentile ------------------------------------------------------------------

  lemma {:induction false} CeilBounds(x: real)
    ensures x <= Ceil(x) as real < x + 1.0
  {
  }

  lemma {:induction false} RankBounds(share: real, count: nat)
    requires 0.0 < share <= count as real
    ensures var rank := RankAt(share, count);
            1 <= rank <= count && rank as real - 1.0 < share <= rank as real
  {
    CeilBounds(share);
  }

  lemma {:induction false} ShareBounds(p: real, count: nat)
    requires 0.0 < p <= 1.0 && count > 0
    ensures 0.0 < p * count as real <= count as real
  {
  }

  lemma {:induction false} CountAtLeast(s: seq<int>, k: nat, counts: int -> bool)
    requires k <= |s| && forall i | 0 <= i < k :: counts(s[i])
    ensures CountBy(s, counts) >= k
  {
    if s != [] {
      var last := |s| - 1;
      CountAtLeast(s[..last], if k <= last then k else last, counts);
    }
  }

  lemma {:induction false} CountAtMost(s: seq<int>, k: nat, counts: int -> bool)
    requires k <= |s| && forall i | k <= i < |s| :: !counts(s[i])
    ensures CountBy(s, counts) <= k
  {
    if s != [] {
      var last := |s| - 1;
      if k <= last {
        CountAtMost(s[..last], k, counts);
      }
    }
  }

  function AtMost(v: int): int -> bool {
    (x: int) => x <= v
  }

  function Below(v: int): int -> bool {
    (x: int) => x < v
  }

  /**
   * In an ordered list, at least `rank` samples are at or below the one of that rank, and fewer are strictly below it.
   */
  lemma {:induction false} CountsAtRank(ordered: seq<int>, rank: nat)
    requires SortedBy(ordered, Itself) && 1 <= rank <= |ordered|
    ensures var v := ordered[rank - 1];
            && CountBy(ordered, AtMost(v)) >= rank
            && CountBy(ordered, Below(v)) <= rank - 1
  {
    var v := ordered[rank - 1];
    forall i | 0 <= i < rank ensures ordered[i] <= v {
      InOrder(ordered, i, rank - 1);
    }
    forall i | rank - 1 <= i < |ordered| ensures v <= ordered[i] {
      InOrder(ordered, rank - 1, i);
    }
    CountAtLeast(ordered, rank, AtMost(v));
    CountAtMost(ordered, rank - 1, Below(v));
  }

  lemma {:induction false} InOrder(ordered: seq<int>, i: nat, j: nat)
    requires SortedBy(ordered, Itself) && i <= j < |ordered|
    ensures ordered[i] <= ordered[j]
  {
    if i < j {
      assert Itself(ordered[i]) <= Itself(ordered[j]);
    }
  }

  /** A sample with at least `share` samples at or below it, and fewer than that strictly below it. */
  ghost predicate IsQuantile(values: seq<int>, v: int, share: real) {
    && v in values
    && CountBy(values, AtMost(v)) as real >= share
    && CountBy(values, Below(v)) as real < share
  }

  lemma {:induction false} QuantileAtRank(values: seq<int>, share: real)
    requires 0.0 < share <= |values| as real
    ensures 1 <= RankAt(share, |values|) <= |values| == |Ordered(values)|
    ensures IsQuantile(values, Ordered(values)[RankAt(share, |values|) - 1], share)
  {
    RankBounds(share, |values|);
    SampleAtRank(values, RankAt(share, |values|));
  }

  /**
   * The nearest rank is a sample with at least a fraction p of all samples at or below it, and less than that fraction
   * strictly below it.
   */
  lemma {:induction false} NearestRankIsQuantile(values: seq<int>, p: real)
    requires values != [] && 0.0 < p <= 1.0
    ensures NearestRank(values, p).Some?
    ensures IsQuantile(values, NearestRank(values, p).value, p * |values| as real)
  {
    ShareBounds(p, |values|);
    QuantileAtRank(values, p * |values| as real);
  }

  lemma {:induction false} SampleAtRank(values: seq<int>, rank: nat)
    requires 1 <= rank <= |values|
    ensures |Ordered(values)| == |values|
    ensures var v := Ordered(values)[rank - 1];
            && v in values
            && CountBy(values, AtMost(v)) >= rank
            && CountBy(values, Below(v)) <= rank - 1
  {
    SortBySorts(values, Itself);
    var ordered := Ordered(values);
    var v := ordered[rank - 1];
    CountsAtRank(ordered, rank);
    CountPermutes(ordered, values, AtMost(v));
    CountPermutes(ordered, values, Below(v));
    assert v in multiset(ordered) && v in multiset(values);
  }

  /** Two ordered lists of the same samples are the same list. */
  lemma {:induction false} OrderedUnique(a: seq<int>, b: seq<int>)
    requires SortedBy(a, Itself) && SortedBy(b, Itself) && multiset(a) == multiset(b)
    ensures a == b
    decreases |a|
  {
    SameLength(a, b);
    if a != [] {
      var last := |a| - 1;
      GreatestIsLast(a, b);
      GreatestIsLast(b, a);
      MultisetWithout(a, last);
      MultisetWithout(b, last);
      assert Without(a, last) == a[..last] && Without(b, last) == b[..last];
      Cancel(multiset(a[..last]), multiset(b[..last]), multiset{a[last]});
      OrderedUnique(a[..last], b[..last]);
      assert a == a[..last] + [a[last]] && b == b[..last] + [b[last]];
    }
  }

  lemma {:induction false} SameLength(a: seq<int>, b: seq<int>)
    requires multiset(a) == multiset(b)
    ensures |a| == |b|
  {
    assert |a| == |multiset(a)| && |b| == |multiset(b)|;
  }

  lemma {:induction false} GreatestIsLast(a: seq<int>, b: seq<int>)
    requires a != [] && b != [] && SortedBy(b, Itself) && multiset(a) == multiset(b)
    ensures a[|a| - 1] <= b[|b| - 1]
  {
    assert a[|a| - 1] in multiset(b);
    var i :| 0 <= i < |b| && b[i] == a[|a| - 1];
    InOrder(b, i, |b| - 1);
  }

  lemma {:induction false} OrderedPermutes(a: seq<int>, b: seq<int>)
    requires multiset(a) == multiset(b)
    ensures Ordered(a) == Ordered(b) && |a| == |b|
  {
    SortBySorts(a, Itself);
    SortBySorts(b, Itself);
    assert |a| == |multiset(a)| && |b| == |multiset(b)|;
    OrderedUnique(Ordered(a), Ordered(b));
  }

  /** The order of the samples does not matter. */
  lemma {:induction false} StatsPermute(a: seq<int>, b: seq<int>, p: real, round: real -> real)
    requires multiset(a) == multiset(b)
    ensures NearestRank(a, p) == NearestRank(b, p) && StatsOf(a, round) == StatsOf(b, round)
  {
    OrderedPermutes(a, b);
  }

  lemma {:induction false} CeilMonotone(x: real, y: real)
    requires x <= y
    ensures Ceil(x) <= Ceil(y)
  {
    CeilBounds(x);
    CeilBounds(y);
  }

  lemma {:induction false} RankMonotone(p: real, q: real, count: nat)
    requires 0.0 < p <= q <= 1.0 && count > 0
    ensures 1 <= RankOf(p, count) <= RankOf(q, count) <= count
  {
    ShareBounds(p, count);
    ShareBounds(q, count);
    assert p * count as real <= q * count as real;
    CeilMonotone(p * count as real, q * count as real);
  }

  lemma {:induction false} SumBounds(values: seq<int>, low: int, high: int)
    requires forall i | 0 <= i < |values| :: low <= values[i] <= high
    ensures low * |values| <= Sum(values) <= high * |values|
  {
    if values == [] {
      assert low * |values| == 0 == high * |values|;
    } else {
      var last := |values| - 1;
      SumBounds(values[..last], low, high);
      assert low * last + low == low * |values| && high * last + high == high * |values|;
    }
  }

  lemma {:induction false} PercentilesInOrder(ordered: seq<int>, p: real, q: real)
    requires SortedBy(ordered, Itself) && ordered != [] && 0.0 < p <= q <= 1.0
    ensures ordered[0] <= NearestRank(ordered, p).value <= NearestRank(ordered, q).value <= ordered[|ordered| - 1]
  {
    SortByOfSorted(ordered, Itself);
    var n := |ordered|;
    RankMonotone(p, q, n);
    InOrder(ordered, 0, RankOf(p, n) - 1);
    InOrder(ordered, RankOf(p, n) - 1, RankOf(q, n) - 1);
    InOrder(ordered, RankOf(q, n) - 1, n - 1);
  }

  lemma {:induction false} EndsAreExtremes(values: seq<int>)
    requires values != []
    ensures |Ordered(values)| == |values| && SortedBy(Ordered(values), Itself)
    ensures var ordered := Ordered(values);
            ordered[0] in values && ordered[|ordered| - 1] in values
            && forall x | x in values :: ordered[0] <= x <= ordered[|ordered| - 1]
  {
    SortBySorts(values, Itself);
    var ordered := Ordered(values);
    forall x | x in values ensures ordered[0] <= x <= ordered[|ordered| - 1] {
      assert x in multiset(ordered);
      var i :| 0 <= i < |ordered| && ordered[i] == x;
      InOrder(ordered, 0, i);
      InOrder(ordered, i, |ordered| - 1);
    }
    assert ordered[0] in multiset(ordered) && ordered[|ordered| - 1] in multiset(ordered);
    assert ordered[0] in multiset(values) && ordered[|ordered| - 1] in multiset(values);
  }

  lemma {:induction false} MeanInside(ordered: seq<int>)
    requires SortedBy(ordered, Itself) && ordered != []
    ensures ordered[0] as real <= Sum(ordered) as real / |ordered| as real <= ordered[|ordered| - 1] as real
  {
    forall i | 0 <= i < |ordered| ensures ordered[0] <= ordered[i] <= ordered[|ordered| - 1] {
      InOrder(ordered, 0, i);
      InOrder(ordered, i, |ordered| - 1);
    }
    SumBounds(ordered, ordered[0], ordered[|ordered| - 1]);
    MeanBounds(ordered[0], ordered[|ordered| - 1], Sum(ordered), |ordered|);
  }

  /** Rounding keeps the order of numbers and moves no integer. */
  ghost predicate Rounds(round: real -> real) {
    && (forall x: real, y: real :: x <= y ==> round(x) <= round(y))
    && (forall x: real :: x.Floor as real == x ==> round(x) == x)
  }

  /** `round(x, 2)`: the nearest number with two decimals, halves to the even one. */
  function TwoDecimals(x: real): real {
    var below := (x * 100.0).Floor;
    var rest := x * 100.0 - below as real;
    (if rest < 0.5 || (rest == 0.5 && below % 2 == 0) then below else below + 1) as real / 100.0
  }

  lemma {:induction false} TwoDecimalsKeepsOrder(x: real, y: real)
    requires x <= y
    ensures TwoDecimals(x) <= TwoDecimals(y)
  {
    assert (x * 100.0).Floor <= (y * 100.0).Floor;
  }

  lemma {:induction false} TwoDecimalsOfInteger(x: real)
    requires x.Floor as real == x
    ensures TwoDecimals(x) == x
  {
    var n := 100 * x.Floor;
    assert x * 100.0 == n as real;
    assert (x * 100.0).Floor == n;
  }

  /** A number halfway between two others goes to the even one. */
  lemma {:induction false} TiesGoToEven(x: real, n: int)
    requires x * 100.0 == n as real + 0.5
    ensures TwoDecimals(x) == (if n % 2 == 0 then n else n + 1) as real / 100.0
  {
    assert (x * 100.0).Floor == n;
  }

  lemma {:induction false} TwoDecimalsRounds()
    ensures Rounds(TwoDecimals)
    ensures forall x: real :: x - 0.005 <= TwoDecimals(x) <= x + 0.005
  {
    forall x: real, y: real | x <= y ensures TwoDecimals(x) <= TwoDecimals(y) {
      TwoDecimalsKeepsOrder(x, y);
    }
    forall x: real | x.Floor as real == x ensures TwoDecimals(x) == x {
      TwoDecimalsOfInteger(x);
    }
  }

  lemma {:induction false} StatsExtremes(values: seq<int>, round: real -> real)
    requires values != [] && Rounds(round)
    ensures StatsOf(values, round).Some?
    ensures var s := StatsOf(values, round).value;
            && s.count == |values| && s.min in values && s.max in values
            && (forall x | x in values :: s.min <= x <= s.max)
            && s.min as real <= s.mean <= s.max as real
  {
    EndsAreExtremes(values);
    MeanInside(Ordered(values));
    var s := StatsOf(values, round).value;
    assert round(s.min as real) == s.min as real && round(s.max as real) == s.max as real;
  }

  lemma {:induction false} StatsPercentiles(values: seq<int>, round: real -> real)
    requires values != []
    ensures var s := StatsOf(values, round).value;
            s.min <= s.p50 <= s.p95 <= s.p99 <= s.max
  {
    EndsAreExtremes(values);
    PercentilesInOrder(Ordered(values), 0.50, 0.95);
    PercentilesInOrder(Ordered(values), 0.95, 0.99);
  }

  /**
   * Of any samples: the least and the greatest are reported, the percentiles lie between them in order, and so does the
   * mean, however it is rounded.
   */
  lemma {:induction false} StatsAreOrdered(values: seq<int>, round: real -> real)
    requires values != [] && Rounds(round)
    ensures StatsOf(values, round).Some?
    ensures var s := StatsOf(values, round).value;
            && s.count == |values| && s.min in values && s.max in values
            && (forall x | x in values :: s.min <= x <= s.max)
            && s.min <= s.p50 <= s.p95 <= s.p99 <= s.max
            && s.min as real <= s.mean <= s.max as real
  {
    StatsExtremes(values, round);
    StatsPercentiles(values, round);
  }

  lemma {:induction false} MeanBounds(low: int, high: int, sum: int, n: nat)
    requires n > 0 && low * n <= sum <= high * n
    ensures low as real <= sum as real / n as real <= high as real
  {
    var mean := sum as real / n as real;
    assert mean * n as real == sum as real;
    Between(low as real, mean, n as real);
    Between(mean, high as real, n as real);
  }

  lemma {:induction false} Between(x: real, y: real, n: real)
    requires n > 0.0 && x * n <= y * n
    ensures x <= y
  {
    if y < x {
      ScaledStrictly(y, x, n);
    }
  }

  lemma {:induction false} ScaledStrictly(x: real, y: real, n: real)
    requires n > 0.0 && x < y
    ensures x * n < y * n
  {
  }

  // ---- samples per node --------------------------------------------------------------------------

  /** The totals a node was given, stage by stage and case by case. */
  function StageSamples(stages: seq<StageTiming>, node: string): seq<int> {
    if stages == [] then []
    else
      var last := stages[|stages| - 1];
      StageSamples(stages[..|stages| - 1], node) + if last.node == node then [last.total] else []
  }

  function SamplesOf(cases: seq<CaseTiming>, node: string): seq<int> {
    if cases == [] then [] else SamplesOf(cases[..|cases| - 1], node) + StageSamples(cases[|cases| - 1].stages, node)
  }

  predicate IsRetry(s: StageTiming, node: string) {
    s.node == node && s.attempts > 1
  }

  function RetriesOf(cases: seq<CaseTiming>, node: string): nat {
    if cases == [] then 0
    else
      RetriesOf(cases[..|cases| - 1], node)
      + CountBy(cases[|cases| - 1].stages, (s: StageTiming) => IsRetry(s, node))
  }

  function Totals(cases: seq<CaseTiming>): seq<int> {
    seq(|cases|, i requires 0 <= i < |cases| => cases[i].total)
  }

  function Available(results: seq<Option<CaseTiming>>): seq<CaseTiming> {
    if results == [] then []
    else
      var last := results[|results| - 1];
      Available(results[..|results| - 1]) + if last.Some? then [last.value] else []
  }

  function EntriesOf(nodes: seq<string>, cases: seq<CaseTiming>, round: real -> real): seq<StageEntry> {
    if nodes == [] then []
    else
      var node := nodes[|nodes| - 1];
      EntriesOf(nodes[..|nodes| - 1], cases, round)
      + EntryFor(node, SamplesOf(cases, node), RetriesOf(cases, node), round)
  }

  /** A node without samples has no entry. */
  function EntryFor(node: string, samples: seq<int>, retries: nat, round: real -> real): seq<StageEntry> {
    var stats := StatsOf(samples, round);
    if stats.Some? then [StageEntry(node, retries, stats.value)] else []
  }

  // ---- which samples ---------------------------------------------------------------------------------

  /** The stages of all cases, case by case. */
  ghost function AllStages(cases: seq<CaseTiming>): seq<StageTiming> {
    if cases == [] then [] else AllStages(cases[..|cases| - 1]) + cases[|cases| - 1].stages
  }

  ghost function IsOf(node: string): StageTiming -> bool {
    (s: StageTiming) => s.node == node
  }

  ghost function WasRetried(node: string): StageTiming -> bool {
    (s: StageTiming) => s.node == node && s.attempts >= 2
  }

  ghost function TotalsOf(stages: seq<StageTiming>): seq<int> {
    seq(|stages|, i requires 0 <= i < |stages| => stages[i].total)
  }

  lemma {:induction false} SamplesOfStages(stages: seq<StageTiming>, node: string)
    returns (kept: seq<StageTiming>, at: seq<nat>)
    ensures KeptAt(stages, IsOf(node), kept, at) && StageSamples(stages, node) == TotalsOf(kept)
  {
    kept, at := [], [];
    if stages != [] {
      var last := |stages| - 1;
      kept, at := SamplesOfStages(stages[..last], node);
      OneMoreKept(stages[..last], stages[last], IsOf(node), kept, at);
      assert stages == stages[..last] + [stages[last]];
      if stages[last].node == node {
        kept, at := kept + [stages[last]], at + [last];
      } else {
        assert StageSamples(stages[..last], node) + [] == StageSamples(stages[..last], node);
      }
    }
  }

  lemma {:induction false} StageSamplesConcat(a: seq<StageTiming>, b: seq<StageTiming>, node: string)
    ensures StageSamples(a + b, node) == StageSamples(a, node) + StageSamples(b, node)
  {
    if b == [] {
      assert a + b == a;
    } else {
      var last := |b| - 1;
      assert (a + b)[..|a + b| - 1] == a + b[..last];
      StageSamplesConcat(a, b[..last], node);
    }
  }

  lemma {:induction false} SamplesOfAll(cases: seq<CaseTiming>, node: string)
    ensures SamplesOf(cases, node) == StageSamples(AllStages(cases), node)
  {
    if cases != [] {
      var last := |cases| - 1;
      SamplesOfAll(cases[..last], node);
      StageSamplesConcat(AllStages(cases[..last]), cases[last].stages, node);
    }
  }

  /** The samples of a node are the totals of its stages, in the order of the cases. */
  lemma {:induction false} SamplesExactly(cases: seq<CaseTiming>, node: string)
    returns (kept: seq<StageTiming>, at: seq<nat>)
    ensures KeptAt(AllStages(cases), IsOf(node), kept, at) && SamplesOf(cases, node) == TotalsOf(kept)
  {
    SamplesOfAll(cases, node);
    kept, at := SamplesOfStages(AllStages(cases), node);
  }

  /** Its retries are those of its stages that took more than one attempt. */
  lemma {:induction false} RetriesExactly(cases: seq<CaseTiming>, node: string)
    ensures RetriesOf(cases, node) == CountBy(AllStages(cases), WasRetried(node))
  {
    if cases != [] {
      var last := |cases| - 1;
      RetriesExactly(cases[..last], node);
      CountConcat(AllStages(cases[..last]), cases[last].stages, WasRetried(node));
      CountAlike(cases[last].stages, (s: StageTiming) => IsRetry(s, node), WasRetried(node));
    }
  }

  ghost predicate IsThere(result: Option<CaseTiming>) {
    result.Some?
  }

  lemma {:induction false} AvailableInOrder(results: seq<Option<CaseTiming>>)
    returns (kept: seq<Option<CaseTiming>>, at: seq<nat>)
    ensures KeptAt(results, IsThere, kept, at) && |Available(results)| == |kept|
    ensures forall i | 0 <= i < |kept| :: kept[i] == Some(Available(results)[i])
  {
    kept, at := [], [];
    if results != [] {
      var last := |results| - 1;
      kept, at := AvailableInOrder(results[..last]);
      OneMoreKept(results[..last], results[last], IsThere, kept, at);
      assert results == results[..last] + [results[last]];
      if results[last].Some? {
        kept, at := kept + [results[last]], at + [last];
      }
    }
  }

  ghost predicate Sampled(
      samples: map<string, seq<int>>, retries: map<string, nat>, nodes: seq<string>, cases: seq<CaseTiming>,
      more: seq<StageTiming>) {
    && samples.Keys == retries.Keys == (set node | node in nodes)
    && forall node | node in samples ::
         && samples[node] == SamplesOf(cases, node) + StageSamples(more, node)
         && retries[node] == RetriesOf(cases, node) + CountBy(more, (s: StageTiming) => IsRetry(s, node))
  }

  /** One stage of a case is added to the samples of its node, if that node is reported. */
  method AddStage(samples: map<string, seq<int>>, retries: map<string, nat>, s: StageTiming,
                  ghost nodes: seq<string>, ghost cases: seq<CaseTiming>, ghost more: seq<StageTiming>)
    returns (samples': map<string, seq<int>>, retries': map<string, nat>)
    requires Sampled(samples, retries, nodes, cases, more)
    ensures Sampled(samples', retries', nodes, cases, more + [s])
  {
    assert (more + [s])[..|more|] == more;
    samples', retries' := samples, retries;
    if s.node in samples {
      samples' := samples[s.node := samples[s.node] + [s.total]];
      if s.attempts > 1 {
        retries' := retries[s.node := retries[s.node] + 1];
      }
    }
  }

  /** `summarize_benchmark_timing`. */
  method SummarizeTiming(results: seq<Option<CaseTiming>>, nodes: seq<string>, round: real -> real)
    returns (summary: TimingSummary)
    ensures var cases := Available(results);
            summary == TimingSummary(|results|, StatsOf(Totals(cases), round), EntriesOf(nodes, cases, round))
  {
    var cases := AvailableCases(results);
    var samples, retries := CollectSamples(cases, nodes);
    var entries := BuildEntries(nodes, samples, retries, round, cases);
    summary := TimingSummary(|results|, StatsOf(Totals(cases), round), entries);
  }

  method CollectSamples(
      cases: seq<CaseTiming>, nodes: seq<string>) returns (samples: map<string, seq<int>>,
      retries: map<string, nat>)
    ensures Sampled(samples, retries, nodes, cases, [])
  {
    samples := map node | node in nodes :: [];
    retries := map node | node in nodes :: 0;
    for c := 0 to |cases|
      invariant Sampled(samples, retries, nodes, cases[..c], [])
    {
      for i := 0 to |cases[c].stages|
        invariant Sampled(samples, retries, nodes, cases[..c], cases[c].stages[..i])
      {
        assert cases[c].stages[..i + 1] == cases[c].stages[..i] + [cases[c].stages[i]];
        samples, retries := AddStage(samples, retries, cases[c].stages[i], nodes, cases[..c], cases[c].stages[..i]);
      }
      assert cases[c].stages[..|cases[c].stages|] == cases[c].stages;
      CaseSampled(samples, retries, nodes, cases, c);
    }
    assert cases[..|cases|] == cases;
  }

  lemma {:induction false} SampledAt(
      samples: map<string, seq<int>>, retries: map<string, nat>, nodes: seq<string>, cases: seq<CaseTiming>,
      k: nat)
    requires Sampled(samples, retries, nodes, cases, []) && k < |nodes|
    ensures nodes[k] in samples && nodes[k] in retries
    ensures samples[nodes[k]] == SamplesOf(cases, nodes[k]) && retries[nodes[k]] == RetriesOf(cases, nodes[k])
  {
    assert nodes[k] in samples && SamplesOf(cases, nodes[k]) + [] == SamplesOf(cases, nodes[k]);
  }

  lemma {:induction false} EntriesStep(nodes: seq<string>, cases: seq<CaseTiming>, k: nat, round: real -> real)
    requires k < |nodes|
    ensures EntriesOf(nodes[..k + 1], cases, round)
            == EntriesOf(nodes[..k], cases, round)
               + EntryFor(nodes[k], SamplesOf(cases, nodes[k]), RetriesOf(cases, nodes[k]), round)
  {
    assert nodes[..k + 1][..k] == nodes[..k];
  }

  method BuildEntries(
      nodes: seq<string>, samples: map<string, seq<int>>, retries: map<string, nat>, round: real -> real,
      ghost cases: seq<CaseTiming>)
    returns (entries: seq<StageEntry>)
    requires Sampled(samples, retries, nodes, cases, [])
    ensures entries == EntriesOf(nodes, cases, round)
  {
    entries := [];
    for k := 0 to |nodes|
      invariant entries == EntriesOf(nodes[..k], cases, round)
    {
      EntriesStep(nodes, cases, k, round);
      SampledAt(samples, retries, nodes, cases, k);
      entries := entries + EntryFor(nodes[k], samples[nodes[k]], retries[nodes[k]], round);
    }
    assert nodes[..|nodes|] == nodes;
  }

  lemma {:induction false} CaseSampled(
      samples: map<string, seq<int>>, retries: map<string, nat>, nodes: seq<string>, cases: seq<CaseTiming>,
      c: nat)
    requires c < |cases| && Sampled(samples, retries, nodes, cases[..c], cases[c].stages)
    ensures Sampled(samples, retries, nodes, cases[..c + 1], [])
  {
    assert cases[..c + 1][..c] == cases[..c];
  }

  method AvailableCases(results: seq<Option<CaseTiming>>) returns (cases: seq<CaseTiming>)
    ensures cases == Available(results)
  {
    cases := [];
    for i := 0 to |results|
      invariant cases == Available(results[..i])
    {
      assert results[..i + 1][..i] == results[..i];
      if results[i].Some? {
        cases := cases + [results[i].value];
      }
    }
    assert results[..|results|] == results;
  }
}
