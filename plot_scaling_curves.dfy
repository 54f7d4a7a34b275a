/**
 * The data side of the scaling-curves figure: `compute_scaling_data` (mean success
 * percentage per batch size over the rows that survive the filter), the loop that records
 * the largest batch size at the threshold, and the style fallback for unknown
 * infrastructures.
 */
module ScalingCurves {
  import opened Wrappers
  import opened Numeric
  import opened SummaryRows

  /**
   * The filter of `compute_scaling_data`: the mode matches, the wait is within 0.01 of the
   * target, `num_requests > 0` and `successful > 0` (a run where the server was not ready
   * is skipped).
   */
  predicate Kept(row: Row, mode: string, waitSeconds: real) {
    ModeIs(row, mode) && WaitNear(row, waitSeconds) && BatchOf(row) > 0 && row.successful.GetOr(0) > 0
  }

  /** The rows that survive the filter, in their original order. */
  function Survivors(rows: seq<Row>, mode: string, waitSeconds: real): (r: seq<Row>)
    ensures |r| <= |rows|
  {
    if rows == [] then []
    else
      var last := rows[|rows| - 1];
      var init := Survivors(rows[..|rows| - 1], mode, waitSeconds);
      if Kept(last, mode, waitSeconds) then init + [last] else init
  }

  /** The survivors are exactly the input rows that pass the filter. */
  lemma {:induction false} SurvivorsMembers(rows: seq<Row>, mode: string, waitSeconds: real)
    ensures forall x :: x in Survivors(rows, mode, waitSeconds) <==> x in rows && Kept(x, mode, waitSeconds)
  {
    if rows != [] {
      SurvivorsMembers(rows[..|rows| - 1], mode, waitSeconds);
      assert rows == rows[..|rows| - 1] + [rows[|rows| - 1]];
    }
  }

  /** With no row passing the filter, nothing survives. */
  lemma {:induction false} SurvivorsNone(rows: seq<Row>, mode: string, waitSeconds: real)
    requires forall k :: 0 <= k < |rows| ==> !Kept(rows[k], mode, waitSeconds)
    ensures Survivors(rows, mode, waitSeconds) == []
  {
    if rows != [] {
      SurvivorsNone(rows[..|rows| - 1], mode, waitSeconds);
    }
  }

  /** `(1 - row.get("error_rate", 0)) * 100`. */
  function Percent(row: Row): real {
    SuccessShare(row) * 100.0
  }

  /** A row whose error rate lies in [0, 1] has a success percentage in [0, 100]. */
  lemma PercentBounds(row: Row)
    requires 0.0 <= row.errorRate.GetOr(0.0) <= 1.0
    ensures 0.0 <= Percent(row) <= 100.0
  {
  }

  /** The success percentages of the rows, in order. */
  function Percents(rows: seq<Row>): (r: seq<real>)
    ensures |r| == |rows|
    ensures forall k :: 0 <= k < |rows| ==> r[k] == Percent(rows[k])
  {
    if rows == [] then [] else Percents(rows[..|rows| - 1]) + [Percent(rows[|rows| - 1])]
  }

  lemma PercentsSnoc(rows: seq<Row>, x: Row)
    ensures Percents(rows + [x]) == Percents(rows) + [Percent(x)]
  {
    assert (rows + [x])[..|rows|] == rows;
  }

  /** `batch_stats[b]`: the percentages of the rows of batch size `b`, in row order. */
  function RatesOf(filtered: seq<Row>, b: int): seq<real> {
    Percents(InBatch(filtered, b))
  }

  /** `[batch_stats[b] for b in sizes]`. */
  function Groups(filtered: seq<Row>, sizes: seq<int>): (r: seq<seq<real>>)
    ensures |r| == |sizes|
    ensures forall k :: 0 <= k < |sizes| ==> r[k] == RatesOf(filtered, sizes[k])
  {
    if sizes == [] then [] else Groups(filtered, sizes[..|sizes| - 1]) + [RatesOf(filtered, sizes[|sizes| - 1])]
  }

  /** No group is empty, so each has a mean. */
  predicate NonEmptyGroups(groups: seq<seq<real>>) {
    forall k :: 0 <= k < |groups| ==> |groups[k]| > 0
  }

  lemma NonEmptyPrefix(groups: seq<seq<real>>, j: nat)
    requires NonEmptyGroups(groups) && j <= |groups|
    ensures NonEmptyGroups(groups[..j])
  {
    assert forall k :: 0 <= k < j ==> groups[..j][k] == groups[k];
  }

  /** Every batch size that occurs has a non-empty group. */
  lemma GroupsNonEmpty(filtered: seq<Row>, sizes: seq<int>)
    requires forall x :: x in sizes ==> x in BatchSizes(filtered)
    ensures NonEmptyGroups(Groups(filtered, sizes))
  {
    forall k | 0 <= k < |sizes| ensures |Groups(filtered, sizes)[k]| > 0 {
      assert sizes[k] in sizes;
      InBatchNonEmpty(filtered, sizes[k]);
    }
  }

  /** `[sum(g) / len(g) for g in groups]`. */
  function Averages(groups: seq<seq<real>>): (r: seq<real>)
    requires NonEmptyGroups(groups)
    ensures |r| == |groups|
  {
    if groups == [] then []
    else
      NonEmptyPrefix(groups, |groups| - 1);
      Averages(groups[..|groups| - 1]) + [Mean(groups[|groups| - 1])]
  }

  /** The `k`-th average is the mean of the `k`-th group. */
  lemma {:induction false} AveragesAt(groups: seq<seq<real>>, k: nat)
    requires NonEmptyGroups(groups) && k < |groups|
    ensures Averages(groups)[k] == Mean(groups[k])
  {
    if k < |groups| - 1 {
      NonEmptyPrefix(groups, |groups| - 1);
      AveragesAt(groups[..|groups| - 1], k);
    }
  }

  /** `compute_scaling_data(data, mode, wait_seconds)`: the sorted batch sizes and their mean percentages. */
  function ScalingData(rows: seq<Row>, mode: string, waitSeconds: real): (seq<int>, seq<real>) {
    var filtered := Survivors(rows, mode, waitSeconds);
    if filtered == [] then ([], [])
    else
      var sizes := SortedList(BatchSizes(filtered));
      GroupsNonEmpty(filtered, sizes);
      (sizes, Averages(Groups(filtered, sizes)))
  }

  /** `batch_stats` holds, for every batch size of `rows`, the percentages of its rows. */
  predicate Grouped(stats: map<int, seq<real>>, rows: seq<Row>) {
    stats.Keys == BatchSizes(rows) &&
    forall b :: b in stats ==> stats[b] == RatesOf(rows, b)
  }

  /** `batch_stats[batch_size].append(success_rate)` on a `defaultdict(list)`. */
  function AddRate(stats: map<int, seq<real>>, row: Row): map<int, seq<real>> {
    var b := BatchOf(row);
    if b in stats then stats[b := stats[b] + [Percent(row)]] else stats[b := [Percent(row)]]
  }

  /** Adding row `i` to the grouping of the rows before it gives the grouping of the rows up to it. */
  lemma GroupStep(stats: map<int, seq<real>>, rows: seq<Row>, i: nat)
    requires i < |rows| && Grouped(stats, rows[..i])
    ensures Grouped(AddRate(stats, rows[i]), rows[..i + 1])
  {
    var stats' := AddRate(stats, rows[i]);
    InBatchSnoc(rows, i, BatchOf(rows[i]));
    assert stats'.Keys == stats.Keys + {BatchOf(rows[i])};
    forall c | c in stats' ensures stats'[c] == RatesOf(rows[..i + 1], c) {
      GroupStepAt(stats, rows, i, c);
    }
  }

  /** The list of one batch size after adding row `i`. */
  lemma GroupStepAt(stats: map<int, seq<real>>, rows: seq<Row>, i: nat, c: int)
    requires i < |rows| && Grouped(stats, rows[..i]) && c in AddRate(stats, rows[i])
    ensures AddRate(stats, rows[i])[c] == RatesOf(rows[..i + 1], c)
  {
    InBatchSnoc(rows, i, c);
    if c == BatchOf(rows[i]) {
      PercentsSnoc(InBatch(rows[..i], c), rows[i]);
      if c !in stats {
        InBatchEmpty(rows[..i], c);
      }
    }
  }

  /**
   * `compute_scaling_data`: filter; with no row left return `([], [])`; otherwise group
   * the percentages by batch size, sort the sizes and average each group.
   */
  method ComputeScalingData(rows: seq<Row>, mode: string, waitSeconds: real)
    returns (sizes: seq<int>, rates: seq<real>)
    ensures (sizes, rates) == ScalingData(rows, mode, waitSeconds)
  {
    var filtered := Survivors(rows, mode, waitSeconds);
    if filtered == [] {
      return [], [];
    }
    var stats := GroupRates(filtered);
    sizes := SortedList(stats.Keys);
    SizesInStats(filtered, stats, sizes);
    rates := AverageGroups(stats, sizes);
    GroupsAreStats(filtered, stats, sizes);
    AveragesOfStats(Groups(filtered, sizes), stats, sizes, rates);
  }

  /** The grouping loop: each row's percentage is appended to the list of its batch size. */
  method GroupRates(filtered: seq<Row>) returns (stats: map<int, seq<real>>)
    ensures Grouped(stats, filtered)
  {
    stats := map[];
    for i := 0 to |filtered|
      invariant Grouped(stats, filtered[..i])
    {
      GroupStep(stats, filtered, i);
      stats := AddRate(stats, filtered[i]);
    }
    WholePrefix(filtered);
  }

  /** `[sum(batch_stats[b]) / len(batch_stats[b]) for b in batch_sizes]`. */
  method AverageGroups(stats: map<int, seq<real>>, sizes: seq<int>) returns (rates: seq<real>)
    requires forall k :: 0 <= k < |sizes| ==> sizes[k] in stats && |stats[sizes[k]]| > 0
    ensures |rates| == |sizes|
    ensures forall k :: 0 <= k < |sizes| ==> rates[k] == Mean(stats[sizes[k]])
  {
    rates := [];
    for j := 0 to |sizes|
      invariant |rates| == j
      invariant forall k :: 0 <= k < j ==> rates[k] == Mean(stats[sizes[k]])
    {
      rates := rates + [Sum(stats[sizes[j]]) / |stats[sizes[j]]| as real];
    }
  }

  /**
   * Averaging the dictionary's lists in the order of the sizes gives the averages of the
   * groups when the groups are those lists.
   */
  lemma AveragesOfStats(groups: seq<seq<real>>, stats: map<int, seq<real>>, sizes: seq<int>, rates: seq<real>)
    requires NonEmptyGroups(groups) && |groups| == |sizes| == |rates|
    requires forall k :: 0 <= k < |sizes| ==> sizes[k] in stats && stats[sizes[k]] == groups[k]
    requires forall k :: 0 <= k < |sizes| ==> rates[k] == Mean(groups[k])
    ensures rates == Averages(groups)
  {
    var averages := Averages(groups);
    forall k | 0 <= k < |sizes| ensures rates[k] == averages[k] {
      AveragesAt(groups, k);
    }
  }

  /** The groups of the sorted sizes are the dictionary's lists, and none is empty. */
  lemma GroupsAreStats(filtered: seq<Row>, stats: map<int, seq<real>>, sizes: seq<int>)
    requires Grouped(stats, filtered) && sizes == SortedList(stats.Keys)
    ensures NonEmptyGroups(Groups(filtered, sizes))
    ensures forall k :: 0 <= k < |sizes| ==> sizes[k] in stats && stats[sizes[k]] == Groups(filtered, sizes)[k]
  {
    GroupsNonEmpty(filtered, sizes);
    forall k | 0 <= k < |sizes| ensures sizes[k] in stats {
      assert sizes[k] in sizes;
    }
  }

  /** Every sorted size is a key of the dictionary with a non-empty list. */
  lemma SizesInStats(filtered: seq<Row>, stats: map<int, seq<real>>, sizes: seq<int>)
    requires Grouped(stats, filtered) && sizes == SortedList(stats.Keys)
    ensures forall k :: 0 <= k < |sizes| ==> sizes[k] in stats && |stats[sizes[k]]| > 0
  {
    forall k | 0 <= k < |sizes| ensures sizes[k] in stats && |stats[sizes[k]]| > 0 {
      assert sizes[k] in sizes;
      InBatchNonEmpty(filtered, sizes[k]);
    }
  }

  /** No row passes the filter: `([], [])`. */
  lemma ScalingDataEmpty(rows: seq<Row>, mode: string, waitSeconds: real)
    requires forall k :: 0 <= k < |rows| ==> !Kept(rows[k], mode, waitSeconds)
    ensures ScalingData(rows, mode, waitSeconds) == ([], [])
  {
    SurvivorsNone(rows, mode, waitSeconds);
  }

  /**
   * The batch sizes are strictly increasing (so distinct), positive, exactly the batch
   * sizes of the surviving rows, and there is one rate per size.
   */
  lemma ScalingDataShape(rows: seq<Row>, mode: string, waitSeconds: real)
    ensures var (sizes, rates) := ScalingData(rows, mode, waitSeconds);
      StrictlyIncreasing(sizes) && |rates| == |sizes| &&
      (forall k :: 0 <= k < |sizes| ==> sizes[k] > 0) &&
      forall b :: b in sizes <==> exists x :: x in rows && Kept(x, mode, waitSeconds) && BatchOf(x) == b
  {
    var sizes := ScalingData(rows, mode, waitSeconds).0;
    ScalingDataSizes(rows, mode, waitSeconds);
    forall k | 0 <= k < |sizes| ensures sizes[k] > 0 {
      assert sizes[k] in sizes;
    }
  }

  /** The batch sizes are exactly those of the surviving rows. */
  lemma ScalingDataSizes(rows: seq<Row>, mode: string, waitSeconds: real)
    ensures forall b :: b in ScalingData(rows, mode, waitSeconds).0 <==>
      exists x :: x in rows && Kept(x, mode, waitSeconds) && BatchOf(x) == b
  {
    var filtered := Survivors(rows, mode, waitSeconds);
    SurvivorsMembers(rows, mode, waitSeconds);
    BatchSizesMembers(filtered);
    if filtered != [] {
      forall b | b in BatchSizes(filtered) ensures exists x :: x in rows && Kept(x, mode, waitSeconds) && BatchOf(x) == b {
        var k :| 0 <= k < |filtered| && BatchOf(filtered[k]) == b;
        assert filtered[k] in filtered;
      }
      forall b | exists x :: x in rows && Kept(x, mode, waitSeconds) && BatchOf(x) == b ensures b in BatchSizes(filtered) {
        var x :| x in rows && Kept(x, mode, waitSeconds) && BatchOf(x) == b;
        assert x in filtered;
        var k :| 0 <= k < |filtered| && filtered[k] == x;
      }
    }
  }

  /** The rate of the `k`-th batch size is the mean percentage of the surviving rows of that size. */
  lemma ScalingDataRate(rows: seq<Row>, mode: string, waitSeconds: real, k: nat)
    requires k < |ScalingData(rows, mode, waitSeconds).0|
    ensures var (sizes, rates) := ScalingData(rows, mode, waitSeconds);
      var filtered := Survivors(rows, mode, waitSeconds);
      sizes[k] in BatchSizes(filtered) && InBatch(filtered, sizes[k]) != [] &&
      rates[k] == Mean(Percents(InBatch(filtered, sizes[k])))
  {
    var filtered := Survivors(rows, mode, waitSeconds);
    var sizes := SortedList(BatchSizes(filtered));
    assert sizes[k] in sizes;
    GroupsNonEmpty(filtered, sizes);
    AveragesAt(Groups(filtered, sizes), k);
    InBatchNonEmpty(filtered, sizes[k]);
  }

  /** When every error rate lies in [0, 1], every rate lies in [0, 100]. */
  lemma ScalingDataRateBounds(rows: seq<Row>, mode: string, waitSeconds: real)
    requires forall k :: 0 <= k < |rows| ==> 0.0 <= rows[k].errorRate.GetOr(0.0) <= 1.0
    ensures var rates := ScalingData(rows, mode, waitSeconds).1;
      forall k :: 0 <= k < |rates| ==> 0.0 <= rates[k] <= 100.0
  {
    ScalingDataShape(rows, mode, waitSeconds);
    var rates := ScalingData(rows, mode, waitSeconds).1;
    forall k | 0 <= k < |rates| ensures 0.0 <= rates[k] <= 100.0 {
      RateBound(rows, mode, waitSeconds, k);
    }
  }

  /** The bound for one rate. */
  lemma RateBound(rows: seq<Row>, mode: string, waitSeconds: real, k: nat)
    requires forall k :: 0 <= k < |rows| ==> 0.0 <= rows[k].errorRate.GetOr(0.0) <= 1.0
    requires k < |ScalingData(rows, mode, waitSeconds).0| == |ScalingData(rows, mode, waitSeconds).1|
    ensures 0.0 <= ScalingData(rows, mode, waitSeconds).1[k] <= 100.0
  {
    ScalingDataRate(rows, mode, waitSeconds, k);
    GroupMeanBound(rows, mode, waitSeconds, ScalingData(rows, mode, waitSeconds).0[k]);
  }

  /** The mean percentage of one batch size's surviving rows lies in [0, 100]. */
  lemma GroupMeanBound(rows: seq<Row>, mode: string, waitSeconds: real, b: int)
    requires forall k :: 0 <= k < |rows| ==> 0.0 <= rows[k].errorRate.GetOr(0.0) <= 1.0
    requires InBatch(Survivors(rows, mode, waitSeconds), b) != []
    ensures 0.0 <= Mean(Percents(InBatch(Survivors(rows, mode, waitSeconds), b))) <= 100.0
  {
    var filtered := Survivors(rows, mode, waitSeconds);
    var group := InBatch(filtered, b);
    SurvivorsMembers(rows, mode, waitSeconds);
    InBatchMembers(filtered, b);
    forall i | 0 <= i < |group| ensures 0.0 <= Percents(group)[i] <= 100.0 {
      assert group[i] in filtered;
      PercentBounds(group[i]);
    }
    MeanBounds(Percents(group), 0.0, 100.0);
  }

  // ---------------------------------------------------------------------------
  // The largest batch size at the threshold
  // ---------------------------------------------------------------------------

  /** `zip(batch_sizes, success_rates)`: pairs up to the shorter of the two lists. */
  function Zip(sizes: seq<int>, rates: seq<real>): (r: seq<(int, real)>)
    ensures |r| == if |sizes| <= |rates| then |sizes| else |rates|
    ensures forall k :: 0 <= k < |r| ==> r[k] == (sizes[k], rates[k])
  {
    if sizes == [] || rates == [] then [] else [(sizes[0], rates[0])] + Zip(sizes[1..], rates[1..])
  }

  /** The position of the last pair whose rate reaches the threshold. */
  function LastIndexAtThreshold(pairs: seq<(int, real)>, threshold: real): (r: Option<nat>)
    ensures r.Some? ==> r.value < |pairs| && pairs[r.value].1 >= threshold &&
                        forall i :: r.value < i < |pairs| ==> pairs[i].1 < threshold
    ensures r.None? ==> forall i :: 0 <= i < |pairs| ==> pairs[i].1 < threshold
  {
    if pairs == [] then None
    else if pairs[|pairs| - 1].1 >= threshold then Some(|pairs| - 1)
    else LastIndexAtThreshold(pairs[..|pairs| - 1], threshold)
  }

  /** The batch of the last pair whose rate reaches the threshold. */
  function LastAtThreshold(pairs: seq<(int, real)>, threshold: real): Option<int> {
    match LastIndexAtThreshold(pairs, threshold)
    case Some(k) => Some(pairs[k].0)
    case None => None
  }

  /** `max_batches[key] = batch` when a pair reached the threshold; the map unchanged otherwise. */
  function Recorded<K>(maxBatches: map<K, int>, key: K, last: Option<int>): map<K, int> {
    if last.Some? then maxBatches[key := last.value] else maxBatches
  }

  /**
   * The loop `for batch, rate in zip(...): if rate >= threshold: max_batches[key] = batch`
   * (keyed by infrastructure in the single-wait figure, by duration in the faceted one).
   */
  method RecordMaxBatch<K>(maxBatches: map<K, int>, key: K, sizes: seq<int>, rates: seq<real>, threshold: real)
    returns (m: map<K, int>)
    ensures m == Recorded(maxBatches, key, LastAtThreshold(Zip(sizes, rates), threshold))
  {
    var pairs := Zip(sizes, rates);
    m := maxBatches;
    for j := 0 to |pairs|
      invariant m == Recorded(maxBatches, key, LastAtThreshold(pairs[..j], threshold))
    {
      LastAtThresholdSnoc(pairs, j, threshold);
      if pairs[j].1 >= threshold {
        m := m[key := pairs[j].0];
      }
    }
    WholePrefix(pairs);
  }

  /** One more pair: it is the new last one at the threshold if its rate reaches it. */
  lemma LastAtThresholdSnoc(pairs: seq<(int, real)>, j: nat, threshold: real)
    requires j < |pairs|
    ensures LastAtThreshold(pairs[..j + 1], threshold) ==
      if pairs[j].1 >= threshold then Some(pairs[j].0) else LastAtThreshold(pairs[..j], threshold)
  {
    PrefixOfPrefix(pairs, j);
  }

  /**
   * Over increasing batch sizes, the recorded batch is one whose rate reaches the
   * threshold and no larger batch's rate does; nothing is recorded when no rate does.
   */
  lemma LastAtThresholdLargest(sizes: seq<int>, rates: seq<real>, threshold: real)
    requires StrictlyIncreasing(sizes) && |rates| == |sizes|
    ensures var r := LastAtThreshold(Zip(sizes, rates), threshold);
      (r.None? <==> forall k :: 0 <= k < |sizes| ==> rates[k] < threshold) &&
      (r.Some? ==> exists k :: 0 <= k < |sizes| && sizes[k] == r.value && rates[k] >= threshold) &&
      (r.Some? ==> forall k :: 0 <= k < |sizes| && sizes[k] > r.value ==> rates[k] < threshold)
  {
    var pairs := Zip(sizes, rates);
    var last := LastIndexAtThreshold(pairs, threshold);
    if last.Some? {
      var k := last.value;
      assert pairs[k] == (sizes[k], rates[k]);
      forall i | 0 <= i < |sizes| && sizes[i] > sizes[k] ensures rates[i] < threshold {
        assert pairs[i] == (sizes[i], rates[i]);
      }
    } else {
      forall i | 0 <= i < |sizes| ensures rates[i] < threshold {
        assert pairs[i] == (sizes[i], rates[i]);
      }
    }
  }

  // ---------------------------------------------------------------------------
  // Infrastructure styles
  // ---------------------------------------------------------------------------

  /** The display label, line colour and marker of one infrastructure. */
  datatype Style = Style(displayName: string, color: string, marker: string)

  /** `INFRA_CONFIG`. */
  const InfraConfig: map<string, Style> := map[
    "local-uvicorn" := Style("Local Uvicorn", "#2ecc71", "o"),
    "local-docker" := Style("Local Docker", "#3498db", "s"),
    "hf-spaces" := Style("HF Spaces (Free)", "#e74c3c", "^"),
    "slurm-single" := Style("SLURM Single", "#9b59b6", "D"),
    "slurm-multi" := Style("SLURM Multi", "#f39c12", "p")
  ]

  /** The colour given to an infrastructure without an entry. */
  const FallbackColor := "#7f8c8d"

  /** `INFRA_CONFIG.get(infra_id, {...})`: an unknown id is labelled with itself, in grey with a circle marker. */
  function StyleOf(infraId: string): (s: Style)
    ensures infraId !in InfraConfig <==> s.color == FallbackColor
    ensures infraId !in InfraConfig ==> s.displayName == infraId && s.marker == "o"
  {
    if infraId in InfraConfig then InfraConfig[infraId] else Style(infraId, FallbackColor, "o")
  }
}
