/**
 * The data side of the single-node/multi-node comparison plot: `load_success_rates`,
 * which averages each (batch size, wait) pair's success rates over its repetitions,
 * and the series `main` draws from the averaged map at one wait time.
 */
module ScalingComparison {
  import opened Numeric

  /** One row of `summary.csv` after `int()`/`float()` of the four columns read. */
  datatype CsvRow = CsvRow(numRequests: int, waitSeconds: real, successful: int, failed: int)

  /** The averaging key `(batch_size, wait_seconds)`. */
  function KeyOf(row: CsvRow): (int, real) {
    (row.numRequests, row.waitSeconds)
  }

  /** `(successful / total) * 100 if total > 0 else 0`. */
  function SuccessRate(row: CsvRow): real {
    var total := row.successful + row.failed;
    if total > 0 then (row.successful as real / total as real) * 100.0 else 0.0
  }

  /** With counts that are not negative, a rate is a percentage. */
  lemma SuccessRateBounds(row: CsvRow)
    requires row.successful >= 0 && row.failed >= 0
    ensures 0.0 <= SuccessRate(row) <= 100.0
    ensures row.successful + row.failed > 0 && row.failed == 0 ==> SuccessRate(row) == 100.0
  {
    var total := row.successful + row.failed;
    if total > 0 {
      DivideBounds(row.successful as real, total as real, 0.0, 1.0);
    }
  }

  // ---------------------------------------------------------------------------
  // Grouping
  // ---------------------------------------------------------------------------

  /** The keys that occur among the rows. */
  function KeysOf(rows: seq<CsvRow>): set<(int, real)> {
    if rows == [] then {} else KeysOf(rows[..|rows| - 1]) + {KeyOf(rows[|rows| - 1])}
  }

  /** The rates of the rows with the key, in row order: `results[key]` after the loop. */
  function RatesAt(rows: seq<CsvRow>, key: (int, real)): (r: seq<real>)
    ensures |r| <= |rows|
  {
    if rows == [] then []
    else
      var init := RatesAt(rows[..|rows| - 1], key);
      if KeyOf(rows[|rows| - 1]) == key then init + [SuccessRate(rows[|rows| - 1])] else init
  }

  /** The keys are exactly the pairs that occur in the rows. */
  lemma {:induction false} KeysOfMembers(rows: seq<CsvRow>)
    ensures forall key :: key in KeysOf(rows) <==> exists k :: 0 <= k < |rows| && KeyOf(rows[k]) == key
  {
    if rows != [] {
      var init := rows[..|rows| - 1];
      KeysOfMembers(init);
      forall key | key in KeysOf(rows) ensures exists k :: 0 <= k < |rows| && KeyOf(rows[k]) == key {
        if key in KeysOf(init) {
          var k :| 0 <= k < |init| && KeyOf(init[k]) == key;
          assert rows[k] == init[k];
        } else {
          assert KeyOf(rows[|rows| - 1]) == key;
        }
      }
      forall key | exists k :: 0 <= k < |rows| && KeyOf(rows[k]) == key ensures key in KeysOf(rows) {
        var k :| 0 <= k < |rows| && KeyOf(rows[k]) == key;
        if k < |init| {
          assert init[k] == rows[k];
        }
      }
    }
  }

  /** A key that occurs has at least one rate; one that does not has none. */
  lemma {:induction false} RatesAtNonEmpty(rows: seq<CsvRow>, key: (int, real))
    ensures |RatesAt(rows, key)| > 0 <==> key in KeysOf(rows)
  {
    if rows != [] {
      RatesAtNonEmpty(rows[..|rows| - 1], key);
    }
  }

  /** With counts that are not negative, every collected rate is a percentage. */
  lemma {:induction false} RatesAtBounds(rows: seq<CsvRow>, key: (int, real))
    requires forall k :: 0 <= k < |rows| ==> rows[k].successful >= 0 && rows[k].failed >= 0
    ensures forall j :: 0 <= j < |RatesAt(rows, key)| ==> 0.0 <= RatesAt(rows, key)[j] <= 100.0
  {
    if rows != [] {
      var init := rows[..|rows| - 1];
      RatesAtBounds(init, key);
      SuccessRateBounds(rows[|rows| - 1]);
    }
  }

  /** `results` after the first `|rows|` rows. */
  predicate Grouped(results: map<(int, real), seq<real>>, rows: seq<CsvRow>) {
    results.Keys == KeysOf(rows) &&
    forall key :: key in results ==> results[key] == RatesAt(rows, key)
  }

  /** `results[key].append(rate)` on a `defaultdict(list)`. */
  function Append(results: map<(int, real), seq<real>>, key: (int, real), rate: real): map<(int, real), seq<real>> {
    results[key := (if key in results then results[key] else []) + [rate]]
  }

  /** One row of the grouping loop keeps `results` equal to the grouping of the rows seen. */
  lemma GroupStep(results: map<(int, real), seq<real>>, rows: seq<CsvRow>, i: nat)
    requires i < |rows|
    requires Grouped(results, rows[..i])
    ensures Grouped(Append(results, KeyOf(rows[i]), SuccessRate(rows[i])), rows[..i + 1])
  {
    PrefixOfPrefix(rows, i);
    var key := KeyOf(rows[i]);
    if key !in results {
      RatesAtNonEmpty(rows[..i], key);
    }
  }

  /** The row loop of `load_success_rates`. */
  method GroupRates(rows: seq<CsvRow>) returns (results: map<(int, real), seq<real>>)
    ensures Grouped(results, rows)
  {
    results := map[];
    for i := 0 to |rows|
      invariant Grouped(results, rows[..i])
    {
      var rate := SuccessRate(rows[i]);
      GroupStep(results, rows, i);
      results := Append(results, KeyOf(rows[i]), rate);
    }
    WholePrefix(rows);
  }

  /** The averaging loop: every key's list replaced by its mean. */
  method AverageRates(results: map<(int, real), seq<real>>) returns (averaged: map<(int, real), real>)
    requires forall key :: key in results ==> |results[key]| > 0
    ensures averaged.Keys == results.Keys
    ensures forall key :: key in averaged ==> key in results && averaged[key] == Mean(results[key])
  {
    averaged := map[];
    var remaining := results.Keys;
    while remaining != {}
      invariant remaining <= results.Keys
      invariant averaged.Keys == results.Keys - remaining
      invariant forall key :: key in averaged ==> key in results && averaged[key] == Mean(results[key])
      decreases |remaining|
    {
      var key :| key in remaining;
      averaged := averaged[key := Mean(results[key])];
      remaining := remaining - {key};
    }
  }

  /**
   * `load_success_rates` on rows already read from the file: the keys of the result are
   * exactly the pairs in the rows, and each maps to the mean of its rows' rates.
   */
  method LoadSuccessRates(rows: seq<CsvRow>) returns (averaged: map<(int, real), real>)
    ensures averaged.Keys == KeysOf(rows)
    ensures forall key :: key in averaged ==> |RatesAt(rows, key)| > 0 && averaged[key] == Mean(RatesAt(rows, key))
  {
    var results := GroupRates(rows);
    forall key | key in results ensures |results[key]| > 0 {
      RatesAtNonEmpty(rows, key);
    }
    averaged := AverageRates(results);
  }

  /** With counts that are not negative, every averaged value is a percentage. */
  lemma AveragedBounds(rows: seq<CsvRow>, key: (int, real))
    requires forall k :: 0 <= k < |rows| ==> rows[k].successful >= 0 && rows[k].failed >= 0
    requires key in KeysOf(rows)
    ensures |RatesAt(rows, key)| > 0
    ensures 0.0 <= Mean(RatesAt(rows, key)) <= 100.0
  {
    RatesAtNonEmpty(rows, key);
    RatesAtBounds(rows, key);
    MeanBounds(RatesAt(rows, key), 0.0, 100.0);
  }

  // ---------------------------------------------------------------------------
  // The plotted series
  // ---------------------------------------------------------------------------

  /** The wait time the comparison plot is drawn at. */
  const PlotWait: real := 1.0

  /** `set(k[0] for k in data.keys())`. */
  function Batches(data: map<(int, real), real>): set<int> {
    set key | key in data :: key.0
  }

  /** `[b for b in batches if (b, wait) in data]`. */
  function AtWait(batches: seq<int>, data: map<(int, real), real>, wait: real): (r: seq<int>)
    ensures forall b :: b in r <==> b in batches && (b, wait) in data
    ensures forall k :: 0 <= k < |r| ==> (r[k], wait) in data
  {
    if batches == [] then []
    else (if (batches[0], wait) in data then [batches[0]] else []) + AtWait(batches[1..], data, wait)
  }

  /** Filtering keeps a strictly increasing list strictly increasing. */
  lemma {:induction false} AtWaitIncreasing(batches: seq<int>, data: map<(int, real), real>, wait: real)
    requires StrictlyIncreasing(batches)
    ensures StrictlyIncreasing(AtWait(batches, data, wait))
  {
    if batches != [] {
      var rest := AtWait(batches[1..], data, wait);
      AtWaitIncreasing(batches[1..], data, wait);
      forall k | 0 <= k < |rest| ensures batches[0] < rest[k] {
        assert rest[k] in batches[1..];
      }
    }
  }

  /** `[data[(b, wait)] for b in xs]`. */
  function ValuesAt(xs: seq<int>, data: map<(int, real), real>, wait: real): (r: seq<real>)
    requires forall k :: 0 <= k < |xs| ==> (xs[k], wait) in data
    ensures |r| == |xs|
    ensures forall k :: 0 <= k < |xs| ==> r[k] == data[(xs[k], wait)]
  {
    if xs == [] then [] else [data[(xs[0], wait)]] + ValuesAt(xs[1..], data, wait)
  }

  /** The x values of one curve: the sorted batch sizes that have an entry at the wait. */
  function SeriesX(data: map<(int, real), real>, wait: real): seq<int> {
    AtWait(SortedList(Batches(data)), data, wait)
  }

  /** The y values, aligned with the x values. */
  function SeriesY(data: map<(int, real), real>, wait: real): seq<real> {
    ValuesAt(SeriesX(data, wait), data, wait)
  }

  /**
   * The x values are strictly increasing and are exactly the batch sizes with an entry
   * at the wait; each y value is the averaged rate at its x value.
   */
  lemma SeriesShape(data: map<(int, real), real>, wait: real)
    ensures StrictlyIncreasing(SeriesX(data, wait))
    ensures forall b :: b in SeriesX(data, wait) <==> (b, wait) in data
    ensures |SeriesY(data, wait)| == |SeriesX(data, wait)|
    ensures forall k :: 0 <= k < |SeriesX(data, wait)| ==>
      SeriesY(data, wait)[k] == data[(SeriesX(data, wait)[k], wait)]
  {
    AtWaitIncreasing(SortedList(Batches(data)), data, wait);
    forall b | (b, wait) in data ensures b in Batches(data) {
      var key := (b, wait);
      assert key.0 == b;
    }
  }

  /**
   * The curve drawn from the rows: its points are the batch sizes measured at the wait,
   * in increasing order, each at the mean rate of its repetitions.
   */
  lemma CurveFromRows(rows: seq<CsvRow>, data: map<(int, real), real>, wait: real)
    requires data.Keys == KeysOf(rows)
    requires forall key :: key in data ==> |RatesAt(rows, key)| > 0 && data[key] == Mean(RatesAt(rows, key))
    ensures forall b :: b in SeriesX(data, wait) <==> exists k :: 0 <= k < |rows| && rows[k].numRequests == b && rows[k].waitSeconds == wait
    ensures forall k :: 0 <= k < |SeriesX(data, wait)| ==>
      |RatesAt(rows, (SeriesX(data, wait)[k], wait))| > 0 &&
      SeriesY(data, wait)[k] == Mean(RatesAt(rows, (SeriesX(data, wait)[k], wait)))
  {
    SeriesShape(data, wait);
    KeysOfMembers(rows);
    forall b | (exists k :: 0 <= k < |rows| && rows[k].numRequests == b && rows[k].waitSeconds == wait)
      ensures (b, wait) in data
    {
      var k :| 0 <= k < |rows| && rows[k].numRequests == b && rows[k].waitSeconds == wait;
      assert KeyOf(rows[k]) == (b, wait);
    }
  }
}
