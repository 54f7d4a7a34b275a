/**
 * The table logic of the results analysis: `compute_max_batch_size` (the largest batch
 * size whose mean success share reaches the threshold, and the median row of that batch)
 * and the cell and winner rules of the two maximum-batch tables.
 */
module AnalyzeResults {
  import opened Wrappers
  import opened Text
  import opened Numeric
  import opened Stats
  import opened SummaryRows

  /** The `(success_rate, row)` pairs the grouping dictionary holds. */
  datatype Rated = Rated(rate: real, row: Row)

  /** `[row for row in summary_data if row.get("mode") == mode and abs(...) < 0.01]`. */
  function Filtered(rows: seq<Row>, mode: string, waitSeconds: real): (r: seq<Row>)
    ensures |r| <= |rows|
  {
    if rows == [] then []
    else
      var last := rows[|rows| - 1];
      var init := Filtered(rows[..|rows| - 1], mode, waitSeconds);
      if ModeIs(last, mode) && WaitNear(last, waitSeconds) then init + [last] else init
  }

  /** The filter keeps exactly the rows of the mode whose wait is within 0.01 of the target. */
  lemma {:induction false} FilteredMembers(rows: seq<Row>, mode: string, waitSeconds: real)
    ensures forall x :: x in Filtered(rows, mode, waitSeconds) <==> x in rows && ModeIs(x, mode) && WaitNear(x, waitSeconds)
  {
    if rows != [] {
      FilteredMembers(rows[..|rows| - 1], mode, waitSeconds);
      assert rows == rows[..|rows| - 1] + [rows[|rows| - 1]];
    }
  }

  /** With no row of the mode near the wait, nothing is left. */
  lemma {:induction false} FilteredNone(rows: seq<Row>, mode: string, waitSeconds: real)
    requires forall k :: 0 <= k < |rows| ==> !(ModeIs(rows[k], mode) && WaitNear(rows[k], waitSeconds))
    ensures Filtered(rows, mode, waitSeconds) == []
  {
    if rows != [] {
      FilteredNone(rows[..|rows| - 1], mode, waitSeconds);
    }
  }

  /** Each row paired with its success share, in order. */
  function RatedRows(rows: seq<Row>): (r: seq<Rated>)
    ensures |r| == |rows|
    ensures forall k :: 0 <= k < |rows| ==> r[k] == Rated(SuccessShare(rows[k]), rows[k])
  {
    if rows == [] then [] else RatedRows(rows[..|rows| - 1]) + [Rated(SuccessShare(rows[|rows| - 1]), rows[|rows| - 1])]
  }

  lemma RatedRowsSnoc(rows: seq<Row>, x: Row)
    ensures RatedRows(rows + [x]) == RatedRows(rows) + [Rated(SuccessShare(x), x)]
  {
    assert (rows + [x])[..|rows|] == rows;
  }

  /** `[x[0] for x in entries]`. */
  function Rates(g: seq<Rated>): (r: seq<real>)
    ensures |r| == |g|
    ensures forall k :: 0 <= k < |g| ==> r[k] == g[k].rate
  {
    if g == [] then [] else Rates(g[..|g| - 1]) + [g[|g| - 1].rate]
  }

  lemma RatesSnoc(g: seq<Rated>, x: Rated)
    ensures Rates(g + [x]) == Rates(g) + [x.rate]
  {
    assert (g + [x])[..|g|] == g;
  }

  predicate SortedByRate(g: seq<Rated>) {
    forall i, j :: 0 <= i < j < |g| ==> g[i].rate <= g[j].rate
  }

  /** Insert `x` after every entry whose rate is not above its own (so equal rates keep their order). */
  function InsertByRate(x: Rated, g: seq<Rated>): (r: seq<Rated>)
    requires SortedByRate(g)
    ensures |r| == |g| + 1
    ensures SortedByRate(r)
    ensures multiset(r) == multiset(g) + multiset{x}
  {
    if g == [] || g[|g| - 1].rate <= x.rate then
      SnocSorted(g, x);
      g + [x]
    else
      var init := g[..|g| - 1];
      var last := g[|g| - 1];
      assert g == init + [last];
      var r0 := InsertByRate(x, init);
      RateBelow(init, x, r0, last.rate);
      SnocSorted(r0, last);
      assert multiset(r0 + [last]) == multiset(r0) + multiset{last};
      r0 + [last]
  }

  /** Inserting an entry adds its rate to the rates. */
  lemma {:induction false} InsertRates(x: Rated, g: seq<Rated>)
    requires SortedByRate(g)
    ensures multiset(Rates(InsertByRate(x, g))) == multiset(Rates(g)) + multiset{x.rate}
    decreases |g|, 1
  {
    if g == [] || g[|g| - 1].rate <= x.rate {
      RatesSnoc(g, x);
      MultisetSnoc(Rates(g), x.rate);
    } else {
      InsertRatesBehind(x, g);
    }
  }

  /** The case where `x` goes before the last entry, by induction on the entries before it. */
  lemma {:induction false} InsertRatesBehind(x: Rated, g: seq<Rated>)
    requires SortedByRate(g) && |g| > 0 && x.rate < g[|g| - 1].rate
    ensures multiset(Rates(InsertByRate(x, g))) == multiset(Rates(g)) + multiset{x.rate}
    decreases |g|, 0
  {
    var init := g[..|g| - 1];
    var last := g[|g| - 1];
    InsertBehindLast(x, g);
    var r0 := InsertByRate(x, init);
    RatesSnoc(r0, last);
    assert g == init + [last];
    RatesSnoc(init, last);
    InsertRates(x, init);
    SnocMultisets(Rates(r0), Rates(init), x.rate, last.rate);
  }

  lemma SnocMultisets(a: seq<real>, b: seq<real>, y: real, z: real)
    requires multiset(a) == multiset(b) + multiset{y}
    ensures multiset(a + [z]) == multiset(b + [z]) + multiset{y}
  {
    MultisetSnoc(a, z);
    MultisetSnoc(b, z);
  }

  lemma MultisetSnoc<T>(a: seq<T>, y: T)
    ensures multiset(a + [y]) == multiset(a) + multiset{y}
  {
  }

  /** An entry whose rate is below the last entry's goes before that last entry. */
  lemma InsertBehindLast(x: Rated, g: seq<Rated>)
    requires SortedByRate(g) && |g| > 0 && x.rate < g[|g| - 1].rate
    ensures SortedByRate(g[..|g| - 1])
    ensures InsertByRate(x, g) == InsertByRate(x, g[..|g| - 1]) + [g[|g| - 1]]
  {
  }

  lemma SnocSorted(g: seq<Rated>, x: Rated)
    requires SortedByRate(g) && forall k :: 0 <= k < |g| ==> g[k].rate <= x.rate
    ensures SortedByRate(g + [x])
  {
  }

  /** Every entry of a rearrangement of `g` plus `x` has a rate at most `hi` when all of theirs do. */
  lemma RateBelow(g: seq<Rated>, x: Rated, r: seq<Rated>, hi: real)
    requires forall k :: 0 <= k < |g| ==> g[k].rate <= hi
    requires x.rate <= hi && multiset(r) == multiset(g) + multiset{x}
    ensures forall k :: 0 <= k < |r| ==> r[k].rate <= hi
  {
    forall k | 0 <= k < |r| ensures r[k].rate <= hi {
      assert r[k] in multiset(r);
      if r[k] != x {
        assert r[k] in multiset(g);
        var i :| 0 <= i < |g| && g[i] == r[k];
      }
    }
  }

  /** `sorted(entries, key=lambda x: x[0])`: Python's stable sort by success share. */
  function SortByRate(g: seq<Rated>): (r: seq<Rated>)
    ensures |r| == |g|
    ensures SortedByRate(r)
    ensures multiset(r) == multiset(g)
  {
    if g == [] then []
    else
      var init := g[..|g| - 1];
      assert g == init + [g[|g| - 1]];
      InsertByRate(g[|g| - 1], SortByRate(init))
  }

  /** Sorting keeps the multiset of rates. */
  lemma {:induction false} SortRates(g: seq<Rated>)
    ensures multiset(Rates(SortByRate(g))) == multiset(Rates(g))
  {
    if g != [] {
      var init := g[..|g| - 1];
      assert g == init + [g[|g| - 1]];
      SortRates(init);
      InsertRates(g[|g| - 1], SortByRate(init));
      RatesSnoc(init, g[|g| - 1]);
    }
  }

  /** `sorted_rows[len(sorted_rows) // 2]`: the entry of median success share. */
  function MedianEntry(g: seq<Rated>): Rated
    requires g != []
  {
    SortByRate(g)[|g| / 2]
  }

  /**
   * The median entry is one of the group's entries, and its success share is the
   * `len // 2`-th smallest share of the group.
   */
  lemma MedianEntryRank(g: seq<Rated>)
    requires g != []
    ensures MedianEntry(g) in g
    ensures MedianEntry(g).rate == SortReals(Rates(g))[|g| / 2]
  {
    MedianEntryMember(g);
    var s := SortByRate(g);
    SortedRates(s);
    SortRates(g);
    SortedUnique(Rates(s), SortReals(Rates(g)));
  }

  lemma MedianEntryMember(g: seq<Rated>)
    requires g != []
    ensures MedianEntry(g) in g
  {
    var s := SortByRate(g);
    assert s[|g| / 2] in multiset(s);
  }

  /** The rates of a list sorted by rate are sorted. */
  lemma SortedRates(s: seq<Rated>)
    requires SortedByRate(s)
    ensures Sorted(Rates(s))
  {
  }

  /** The group of batch size `b`: its rows with their success shares, in row order. */
  function GroupOf(filtered: seq<Row>, b: int): seq<Rated> {
    RatedRows(InBatch(filtered, b))
  }

  /** `avg_rate >= success_threshold` for the group of batch size `b`. */
  predicate Passes(filtered: seq<Row>, b: int, threshold: real) {
    b in BatchSizes(filtered) &&
    (InBatchNonEmpty(filtered, b); Mean(Rates(GroupOf(filtered, b))) >= threshold)
  }

  /** The threshold test as a value, so that the walk over the keys can be stated for any test. */
  function PassTest(filtered: seq<Row>, threshold: real): int -> bool {
    b => Passes(filtered, b, threshold)
  }

  /** The row reported for a passing batch size. */
  function MedianRow(filtered: seq<Row>, b: int): Row
    requires b in BatchSizes(filtered)
  {
    InBatchNonEmpty(filtered, b);
    MedianEntry(GroupOf(filtered, b)).row
  }

  /** The walk over `keys` that overwrites its result at every key passing `p`: the last such key. */
  function LastWhere(keys: seq<int>, p: int -> bool): (r: Option<int>)
    ensures r.Some? ==> r.value in keys && p(r.value)
  {
    if keys == [] then None
    else if p(keys[|keys| - 1]) then Some(keys[|keys| - 1])
    else LastWhere(keys[..|keys| - 1], p)
  }

  /** One more key: it wins when it passes, otherwise the result stays. */
  lemma LastWhereSnoc(keys: seq<int>, j: nat, p: int -> bool)
    requires j < |keys|
    ensures LastWhere(keys[..j + 1], p) == if p(keys[j]) then Some(keys[j]) else LastWhere(keys[..j], p)
  {
    assert keys[..j + 1][..j] == keys[..j];
  }

  /** The walk over the whole prefix is the walk over the keys. */
  lemma LastWhereWhole(keys: seq<int>, p: int -> bool)
    ensures LastWhere(keys[..|keys|], p) == LastWhere(keys, p)
  {
    assert keys[..|keys|] == keys;
  }

  /**
   * Over ascending keys, the last passing key is the largest passing key, and the walk
   * finds nothing only when no key passes.
   */
  lemma {:induction false} LastWhereLargest(keys: seq<int>, p: int -> bool)
    requires StrictlyIncreasing(keys)
    ensures LastWhere(keys, p).None? ==> forall k :: 0 <= k < |keys| ==> !p(keys[k])
    ensures LastWhere(keys, p).Some? ==>
      forall k :: 0 <= k < |keys| && keys[k] > LastWhere(keys, p).value ==> !p(keys[k])
  {
    if keys != [] {
      var init := keys[..|keys| - 1];
      var last := keys[|keys| - 1];
      LastWhereLargest(init, p);
      if !p(last) {
        forall k | 0 <= k < |init| ensures init[k] == keys[k] && init[k] < last {
        }
        var r := LastWhere(init, p);
        if r.Some? {
          var i :| 0 <= i < |init| && init[i] == r.value;
        }
      }
    }
  }

  /** What the function returns once the walk has ended on `b`. */
  function Outcome(filtered: seq<Row>, b: Option<int>): (Option<int>, Option<Row>)
    requires b.Some? ==> b.value in BatchSizes(filtered)
  {
    if b.None? then (None, None) else (b, Some(MedianRow(filtered, b.value)))
  }

  /** `compute_max_batch_size(summary_data, mode, wait_seconds, success_threshold)`. */
  function MaxBatch(rows: seq<Row>, mode: string, waitSeconds: real, threshold: real): (Option<int>, Option<Row>) {
    var filtered := Filtered(rows, mode, waitSeconds);
    Outcome(filtered, LastWhere(SortedList(BatchSizes(filtered)), PassTest(filtered, threshold)))
  }

  /**
   * `compute_max_batch_size`: filter; with no row left return `(None, None)`; otherwise
   * group the rows by batch size, then walk the batch sizes in ascending order keeping
   * the last one that passes.
   */
  method ComputeMaxBatchSize(rows: seq<Row>, mode: string, waitSeconds: real, threshold: real)
    returns (maxBatch: Option<int>, maxRow: Option<Row>)
    ensures (maxBatch, maxRow) == MaxBatch(rows, mode, waitSeconds, threshold)
  {
    var filtered := Filtered(rows, mode, waitSeconds);
    if filtered == [] {
      assert SortedList(BatchSizes(filtered)) == [];
      return None, None;
    }
    var stats := GroupByBatch(filtered);
    maxBatch, maxRow := WalkBatches(filtered, stats, threshold);
  }

  /** `stats` is the grouping dictionary of `rows`: one entry list per batch size, in row order. */
  predicate Grouped(stats: map<int, seq<Rated>>, rows: seq<Row>) {
    stats.Keys == BatchSizes(rows) &&
    forall b :: b in stats ==> stats[b] == GroupOf(rows, b)
  }

  /** `batch_stats[batch_size].append((success_rate, row))` on a `defaultdict(list)`. */
  function AddEntry(stats: map<int, seq<Rated>>, row: Row): map<int, seq<Rated>> {
    var b := BatchOf(row);
    var entry := Rated(SuccessShare(row), row);
    if b in stats then stats[b := stats[b] + [entry]] else stats[b := [entry]]
  }

  /** The grouping loop: each row's entry is appended to the list of its batch size. */
  method GroupByBatch(filtered: seq<Row>) returns (stats: map<int, seq<Rated>>)
    ensures Grouped(stats, filtered)
  {
    stats := map[];
    for i := 0 to |filtered|
      invariant Grouped(stats, filtered[..i])
    {
      GroupStep(stats, filtered, i);
      stats := AddEntry(stats, filtered[i]);
    }
    assert filtered[..|filtered|] == filtered;
  }

  /** Row `i` extends the group of its own batch size, and no other group. */
  lemma GroupOfSnoc(filtered: seq<Row>, i: nat, c: int)
    requires i < |filtered|
    ensures GroupOf(filtered[..i + 1], c) ==
      GroupOf(filtered[..i], c) + (if c == BatchOf(filtered[i]) then [Rated(SuccessShare(filtered[i]), filtered[i])] else [])
  {
    InBatchSnoc(filtered, i, c);
    if c == BatchOf(filtered[i]) {
      RatedRowsSnoc(InBatch(filtered[..i], c), filtered[i]);
    }
  }

  /** Adding row `i` to the grouping of the rows before it gives the grouping of the rows up to it. */
  lemma GroupStep(stats: map<int, seq<Rated>>, filtered: seq<Row>, i: nat)
    requires i < |filtered| && Grouped(stats, filtered[..i])
    ensures Grouped(AddEntry(stats, filtered[i]), filtered[..i + 1])
  {
    var stats' := AddEntry(stats, filtered[i]);
    InBatchSnoc(filtered, i, BatchOf(filtered[i]));
    assert stats'.Keys == stats.Keys + {BatchOf(filtered[i])};
    forall c | c in stats' ensures stats'[c] == GroupOf(filtered[..i + 1], c) {
      GroupStepAt(stats, filtered, i, c);
    }
  }

  /** The group of one batch size after adding row `i`. */
  lemma GroupStepAt(stats: map<int, seq<Rated>>, filtered: seq<Row>, i: nat, c: int)
    requires i < |filtered| && Grouped(stats, filtered[..i]) && c in AddEntry(stats, filtered[i])
    ensures AddEntry(stats, filtered[i])[c] == GroupOf(filtered[..i + 1], c)
  {
    GroupOfSnoc(filtered, i, c);
    if c == BatchOf(filtered[i]) && c !in stats {
      InBatchEmpty(filtered[..i], c);
    }
  }

  /** The loop over `sorted(batch_stats.keys())`: the last batch size whose mean share reaches the threshold. */
  method WalkBatches(filtered: seq<Row>, stats: map<int, seq<Rated>>, threshold: real)
    returns (maxBatch: Option<int>, maxRow: Option<Row>)
    requires Grouped(stats, filtered)
    ensures (maxBatch, maxRow) == Outcome(filtered, LastWhere(SortedList(BatchSizes(filtered)), PassTest(filtered, threshold)))
  {
    var keys := SortedList(stats.Keys);
    assert keys == SortedList(BatchSizes(filtered));
    ghost var p := PassTest(filtered, threshold);
    maxBatch, maxRow := None, None;
    for j := 0 to |keys|
      invariant (maxBatch, maxRow) == Outcome(filtered, LastWhere(keys[..j], p))
    {
      LastWhereSnoc(keys, j, p);
      assert keys[j] in stats;
      maxBatch, maxRow := VisitBatch(filtered, stats, keys[j], threshold, maxBatch, maxRow);
    }
    LastWhereWhole(keys, p);
  }

  /** One iteration of the walk: a passing batch size replaces the current result. */
  method VisitBatch(filtered: seq<Row>, stats: map<int, seq<Rated>>, b: int, threshold: real,
                    maxBatch: Option<int>, maxRow: Option<Row>)
    returns (maxBatch': Option<int>, maxRow': Option<Row>)
    requires Grouped(stats, filtered) && b in stats
    ensures b in BatchSizes(filtered)
    ensures (maxBatch', maxRow') ==
      if Passes(filtered, b, threshold) then (Some(b), Some(MedianRow(filtered, b))) else (maxBatch, maxRow)
  {
    InBatchNonEmpty(filtered, b);
    maxBatch', maxRow' := maxBatch, maxRow;
    var rates := Rates(stats[b]);
    var avgRate := Sum(rates) / |rates| as real;
    if avgRate >= threshold {
      maxBatch' := Some(b);
      var sortedRows := SortByRate(stats[b]);
      maxRow' := Some(sortedRows[|sortedRows| / 2].row);
    }
  }

  /** No row of the mode near the wait: `(None, None)`. */
  lemma MaxBatchNoRows(rows: seq<Row>, mode: string, waitSeconds: real, threshold: real)
    requires forall k :: 0 <= k < |rows| ==> !(ModeIs(rows[k], mode) && WaitNear(rows[k], waitSeconds))
    ensures MaxBatch(rows, mode, waitSeconds, threshold) == (None, None)
  {
    var filtered := Filtered(rows, mode, waitSeconds);
    FilteredNone(rows, mode, waitSeconds);
    assert SortedList(BatchSizes(filtered)) == [];
  }

  /**
   * The batch size `compute_max_batch_size` returns is the largest one, among the matching
   * rows, whose mean success share reaches the threshold, whatever smaller sizes do; it
   * returns `(None, None)` exactly when no batch size passes.
   */
  lemma MaxBatchLargest(rows: seq<Row>, mode: string, waitSeconds: real, threshold: real)
    ensures var filtered := Filtered(rows, mode, waitSeconds);
      var (b, row) := MaxBatch(rows, mode, waitSeconds, threshold);
      (b.None? <==> row.None?) &&
      (b.None? ==> forall c :: !Passes(filtered, c, threshold)) &&
      (b.Some? ==> Passes(filtered, b.value, threshold) &&
                   forall c :: c > b.value ==> !Passes(filtered, c, threshold))
  {
    var filtered := Filtered(rows, mode, waitSeconds);
    var keys := SortedList(BatchSizes(filtered));
    var p := PassTest(filtered, threshold);
    LastWhereLargest(keys, p);
  }

  /** The reported row is one of the input rows, of the mode, near the wait, and of the reported batch size. */
  lemma MaxBatchRow(rows: seq<Row>, mode: string, waitSeconds: real, threshold: real)
    requires MaxBatch(rows, mode, waitSeconds, threshold).0.Some?
    ensures var (b, row) := MaxBatch(rows, mode, waitSeconds, threshold);
      row.Some? && row.value in rows && ModeIs(row.value, mode) && WaitNear(row.value, waitSeconds) &&
      BatchOf(row.value) == b.value
  {
    var filtered := Filtered(rows, mode, waitSeconds);
    var b := MaxBatch(rows, mode, waitSeconds, threshold).0.value;
    InBatchNonEmpty(filtered, b);
    var g := GroupOf(filtered, b);
    MedianEntryRank(g);
    var k :| 0 <= k < |g| && g[k] == MedianEntry(g);
    var x := InBatch(filtered, b)[k];
    assert g[k].row == x;
    InBatchMembers(filtered, b);
    assert x in InBatch(filtered, b);
    FilteredMembers(rows, mode, waitSeconds);
  }

  /** The reported row's success share is the median (`len // 2`-th smallest) share of its batch. */
  lemma MaxBatchRowIsMedian(rows: seq<Row>, mode: string, waitSeconds: real, threshold: real)
    requires MaxBatch(rows, mode, waitSeconds, threshold).0.Some?
    ensures var filtered := Filtered(rows, mode, waitSeconds);
      var (b, row) := MaxBatch(rows, mode, waitSeconds, threshold);
      var g := GroupOf(filtered, b.value);
      g != [] && row.Some? &&
      (exists k :: 0 <= k < |g| && g[k].row == row.value && g[k].rate == SortReals(Rates(g))[|g| / 2])
  {
    var filtered := Filtered(rows, mode, waitSeconds);
    var b := MaxBatch(rows, mode, waitSeconds, threshold).0.value;
    InBatchNonEmpty(filtered, b);
    var g := GroupOf(filtered, b);
    MedianEntryRank(g);
    var k :| 0 <= k < |g| && g[k] == MedianEntry(g);
  }

  // ---------------------------------------------------------------------------
  // Table cells
  // ---------------------------------------------------------------------------

  /** Python truthiness of an optional batch size: `None` and `0` are both false. */
  predicate Truthy(m: Option<int>) {
    m.Some? && m.value != 0
  }

  /** `str(max_batch) if max_batch else "-"`: a cell that reads back as the batch size, or a dash. */
  function CellText(m: Option<int>): (cell: string)
    ensures !Truthy(m) <==> cell == "-"
    ensures Truthy(m) ==> ParseInt(cell) == m
  {
    if Truthy(m) then
      ParseDecimalString(m.value);
      assert DecimalString(m.value) != "-" by {
        if m.value >= 0 { assert IsDigit(DecimalString(m.value)[0]); } else { assert |NatDigits(-m.value)| > 0; }
      }
      DecimalString(m.value)
    else "-"
  }

  /** The ratio and winner columns of the protocol comparison table (the ratio before formatting). */
  datatype Comparison = Comparison(ratio: Option<real>, winner: string)

  /** The ratio and winner of one (infrastructure, wait) line. */
  function Compare(wsMax: Option<int>, httpMax: Option<int>): (c: Comparison)
    ensures c.ratio.Some? <==> Truthy(wsMax) && Truthy(httpMax)
    ensures c.ratio.Some? ==> c.ratio.value == wsMax.value as real / httpMax.value as real
    ensures c.winner == "WS" <==> Truthy(wsMax) && (!Truthy(httpMax) || wsMax.value > httpMax.value)
    ensures c.winner == "HTTP" <==> Truthy(httpMax) && (!Truthy(wsMax) || httpMax.value > wsMax.value)
    ensures c.winner == "Tie" <==> Truthy(wsMax) && Truthy(httpMax) && wsMax.value == httpMax.value
    ensures c.winner == "-" <==> !Truthy(wsMax) && !Truthy(httpMax)
  {
    if Truthy(wsMax) && Truthy(httpMax) then
      var ws, http := wsMax.value, httpMax.value;
      Comparison(Some(ws as real / http as real),
                 if ws > http then "WS" else if http > ws then "HTTP" else "Tie")
    else
      Comparison(None, if Truthy(wsMax) then "WS" else if Truthy(httpMax) then "HTTP" else "-")
  }

  /** The winner named from the other protocol's side. */
  function Opposite(winner: string): string {
    if winner == "WS" then "HTTP" else if winner == "HTTP" then "WS" else winner
  }

  /** Swapping the two maxima swaps the winner and inverts the ratio. */
  lemma CompareSwap(wsMax: Option<int>, httpMax: Option<int>)
    ensures Compare(httpMax, wsMax).winner == Opposite(Compare(wsMax, httpMax).winner)
    ensures Compare(wsMax, httpMax).ratio.Some? ==>
      Compare(httpMax, wsMax).ratio.Some? &&
      Compare(wsMax, httpMax).ratio.value * Compare(httpMax, wsMax).ratio.value == 1.0
  {
    if Truthy(wsMax) && Truthy(httpMax) {
      var a, b := wsMax.value as real, httpMax.value as real;
      assert (a / b) * (b / a) == 1.0;
    }
  }
}
