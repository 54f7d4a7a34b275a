/**
 * Running trials and keeping their records: `run_single_test`, `run_grid_sweep`,
 * `run_comparison`, and the two append-only output files (`raw.jsonl` with one line per
 * session, `summary.csv` with a header and one row per trial).
 */
module Sweep {
  import opened Summary
  import opened Sessions

  /**
   * How a record becomes one line of text (`json.dumps(asdict(r))`, a `csv.DictWriter`
   * row, and the header naming the summary's fields). The library formats are not modelled.
   */
  datatype Codec = Codec(record: SessionResult -> string, row: RunSummary -> string, header: string)

  /** `[codec.record(r) for r in results]`. */
  function JsonLines(codec: Codec, results: seq<SessionResult>): (lines: seq<string>)
    ensures |lines| == |results|
    ensures forall i :: 0 <= i < |results| ==> lines[i] == codec.record(results[i])
  {
    if results == [] then [] else JsonLines(codec, results[..|results| - 1]) + [codec.record(results[|results| - 1])]
  }

  function CsvRows(codec: Codec, summaries: seq<RunSummary>): (lines: seq<string>)
    ensures |lines| == |summaries|
    ensures forall i :: 0 <= i < |summaries| ==> lines[i] == codec.row(summaries[i])
  {
    if summaries == [] then [] else CsvRows(codec, summaries[..|summaries| - 1]) + [codec.row(summaries[|summaries| - 1])]
  }

  /** The lines `write_csv_summary` appends: nothing for no summaries, else a header if the file is new, then the rows. */
  function CsvAppend(codec: Codec, existed: bool, summaries: seq<RunSummary>): seq<string> {
    if summaries == [] then [] else (if existed then [] else [codec.header]) + CsvRows(codec, summaries)
  }

  /** Two appends in a row write what one append of both lists would, with a single header. */
  lemma CsvAppendTwice(codec: Codec, existed: bool, first: seq<RunSummary>, s: RunSummary)
    ensures CsvAppend(codec, existed, first) + CsvAppend(codec, existed || first != [], [s])
         == CsvAppend(codec, existed, first + [s])
  {
    assert (first + [s])[..|first + [s]| - 1] == first;
    assert CsvRows(codec, [s]) == [codec.row(s)];
  }

  /** An output directory: the lines of its two files, and whether the summary file exists yet. */
  class OutputDir {
    const codec: Codec
    var raw: seq<string>
    var summary: seq<string>
    var summaryExists: bool

    constructor (codec: Codec, raw: seq<string>, summary: seq<string>, summaryExists: bool)
      ensures this.codec == codec && this.raw == raw && this.summary == summary
      ensures this.summaryExists == summaryExists
    {
      this.codec := codec;
      this.raw := raw;
      this.summary := summary;
      this.summaryExists := summaryExists;
    }

    /** `write_jsonl`: one line appended per record, in order. */
    method WriteJsonl(results: seq<SessionResult>)
      modifies this
      ensures raw == old(raw) + JsonLines(codec, results)
      ensures summary == old(summary) && summaryExists == old(summaryExists)
    {
      for i := 0 to |results|
        invariant raw == old(raw) + JsonLines(codec, results[..i])
        invariant summary == old(summary) && summaryExists == old(summaryExists)
      {
        assert results[..i + 1][..i] == results[..i];
        raw := raw + [codec.record(results[i])];
      }
      assert results[..|results|] == results;
    }

    /** `write_csv_summary`: nothing for no summaries; otherwise a header if the file is new, then one row each. */
    method WriteCsvSummary(summaries: seq<RunSummary>)
      modifies this
      ensures summary == old(summary) + CsvAppend(codec, old(summaryExists), summaries)
      ensures summaryExists == (old(summaryExists) || summaries != [])
      ensures raw == old(raw)
    {
      if summaries == [] {
        return;
      }
      var fileExists := summaryExists;
      summaryExists := true;
      if !fileExists {
        summary := summary + [codec.header];
      }
      ghost var start := summary;
      assert summaries[..0] == [];
      for i := 0 to |summaries|
        invariant summary == start + CsvRows(codec, summaries[..i])
        invariant summaryExists && raw == old(raw)
      {
        CsvRowsSnoc(codec, summaries, i);
        AppendAssoc(start, CsvRows(codec, summaries[..i]), [codec.row(summaries[i])]);
        summary := summary + [codec.row(summaries[i])];
      }
      assert summaries[..|summaries|] == summaries;
    }
  }

  lemma CsvRowsSnoc(codec: Codec, summaries: seq<RunSummary>, i: nat)
    requires i < |summaries|
    ensures CsvRows(codec, summaries[..i + 1]) == CsvRows(codec, summaries[..i]) + [codec.row(summaries[i])]
  {
    assert summaries[..i + 1][..i] == summaries[..i];
  }

  /** The summary of one trial. */
  function TrialSummary(world: World, url: string, t: Trial, hardware: string): RunSummary {
    Summarize(BatchResults(world, url, t, hardware), t.mode, url, t.numRequests, t.waitSeconds,
              t.repetition, world.wallTime(t), hardware, world.clock(t))
  }

  /**
   * `run_single_test`: run the batch over WebSocket when the mode is "ws" and over HTTP
   * otherwise, summarise it, and append its records and its summary row when there is an
   * output directory.
   */
  method RunSingleTest(world: World, out: OutputDir?, url: string, t: Trial, hardware: string)
    returns (summary: RunSummary)
    modifies out
    ensures summary == TrialSummary(world, url, t, hardware)
    ensures out != null ==>
      out.raw == old(out.raw) + JsonLines(out.codec, BatchResults(world, url, t, hardware)) &&
      out.summary == old(out.summary) + CsvAppend(out.codec, old(out.summaryExists), [summary]) &&
      out.summaryExists
  {
    var results;
    if t.mode == "ws" {
      results := RunWsTest(world, url, t, hardware);
    } else {
      results := RunHttpTest(world, url, t, hardware);
    }
    var wall := world.wallTime(t);
    summary := ComputeSummary(results, t.mode, url, t.numRequests, t.waitSeconds, t.repetition, wall,
                              hardware, world.clock(t));
    if out != null {
      out.WriteJsonl(results);
      out.WriteCsvSummary([summary]);
    }
  }

  // ---------------------------------------------------------------------------
  // The sweep order
  // ---------------------------------------------------------------------------

  /** Repetitions 1..reps of one (batch size, wait) cell. */
  function RepTrials(mode: string, n: nat, w: real, reps: nat): (ts: seq<Trial>)
    ensures |ts| == reps
  {
    if reps == 0 then [] else RepTrials(mode, n, w, reps - 1) + [Trial(mode, n, w, reps)]
  }

  lemma {:induction false} RepTrialsAt(mode: string, n: nat, w: real, reps: nat, r: nat)
    requires r < reps
    ensures RepTrials(mode, n, w, reps)[r] == Trial(mode, n, w, r + 1)
  {
    if r < reps - 1 {
      RepTrialsAt(mode, n, w, reps - 1, r);
    }
  }

  /** The cells of one batch size, by wait in grid order. */
  function WaitTrials(mode: string, n: nat, waits: seq<real>, reps: nat): seq<Trial> {
    if waits == [] then []
    else WaitTrials(mode, n, waits[..|waits| - 1], reps) + RepTrials(mode, n, waits[|waits| - 1], reps)
  }

  lemma {:induction false} WaitTrialsLength(mode: string, n: nat, waits: seq<real>, reps: nat)
    ensures |WaitTrials(mode, n, waits, reps)| == |waits| * reps
  {
    if waits != [] {
      WaitTrialsLength(mode, n, waits[..|waits| - 1], reps);
      MulSucc(|waits| - 1, reps);
    }
  }

  /** Every trial of a sweep in the order it runs: batch size outermost, then wait, then repetition. */
  function GridTrials(mode: string, sizes: seq<nat>, waits: seq<real>, reps: nat): seq<Trial> {
    if sizes == [] then []
    else GridTrials(mode, sizes[..|sizes| - 1], waits, reps) + WaitTrials(mode, sizes[|sizes| - 1], waits, reps)
  }

  lemma WaitTrialsSnoc(mode: string, n: nat, waits: seq<real>, reps: nat, j: nat)
    requires j < |waits|
    ensures WaitTrials(mode, n, waits[..j + 1], reps) == WaitTrials(mode, n, waits[..j], reps) + RepTrials(mode, n, waits[j], reps)
  {
    assert waits[..j + 1][..j] == waits[..j];
  }

  lemma GridTrialsSnoc(mode: string, sizes: seq<nat>, waits: seq<real>, reps: nat, i: nat)
    requires i < |sizes|
    ensures GridTrials(mode, sizes[..i + 1], waits, reps) == GridTrials(mode, sizes[..i], waits, reps) + WaitTrials(mode, sizes[i], waits, reps)
  {
    assert sizes[..i + 1][..i] == sizes[..i];
  }

  lemma AppendAssoc<T>(a: seq<T>, b: seq<T>, c: seq<T>)
    ensures a + (b + c) == (a + b) + c
  {
  }

  lemma MulSucc(a: nat, b: nat)
    ensures (a + 1) * b == a * b + b
  {
  }

  lemma MulAssoc(a: nat, b: nat, c: nat)
    ensures a * b * c == a * (b * c)
  {
  }

  lemma MulMonotone(a: nat, b: nat, c: nat)
    requires a <= b
    ensures a * c <= b * c
  {
  }

  lemma {:induction false} WaitTrialsAt(mode: string, n: nat, waits: seq<real>, reps: nat, b: nat, r: nat)
    requires b < |waits| && r < reps
    ensures |WaitTrials(mode, n, waits, reps)| == |waits| * reps
    ensures b * reps + r < |waits| * reps
    ensures WaitTrials(mode, n, waits, reps)[b * reps + r] == Trial(mode, n, waits[b], r + 1)
    decreases |waits|
  {
    var init := waits[..|waits| - 1];
    WaitTrialsLength(mode, n, waits, reps);
    WaitTrialsLength(mode, n, init, reps);
    MulSucc(|init|, reps);
    MulMonotone(b + 1, |waits|, reps);
    MulSucc(b, reps);
    if b < |init| {
      WaitTrialsAt(mode, n, init, reps, b, r);
      MulMonotone(b + 1, |init|, reps);
    } else {
      assert b == |init|;
      RepTrialsAt(mode, n, waits[b], reps, r);
    }
  }

  /** A sweep runs `len(requests_grid) * len(wait_grid) * repetitions` trials. */
  lemma {:induction false} GridTrialsLength(mode: string, sizes: seq<nat>, waits: seq<real>, reps: nat)
    ensures |GridTrials(mode, sizes, waits, reps)| == |sizes| * |waits| * reps
  {
    MulAssoc(|sizes|, |waits|, reps);
    if sizes != [] {
      GridTrialsLength(mode, sizes[..|sizes| - 1], waits, reps);
      WaitTrialsLength(mode, sizes[|sizes| - 1], waits, reps);
      MulAssoc(|sizes| - 1, |waits|, reps);
      MulSucc(|sizes| - 1, |waits| * reps);
    }
  }

  /** Where cell (a, b, r) of a three-level loop falls: block `a` of size `nb * reps`, offset `b * reps + r` in it. */
  lemma CellIndex(a: nat, b: nat, r: nat, na: nat, nb: nat, reps: nat)
    requires a < na && b < nb && r < reps
    ensures (a * nb + b) * reps + r == a * (nb * reps) + (b * reps + r)
    ensures b * reps + r < nb * reps
    ensures a * (nb * reps) + nb * reps <= na * (nb * reps)
    ensures na * nb * reps == na * (nb * reps)
  {
    MulAssoc(a, nb, reps);
    MulAssoc(na, nb, reps);
    MulSucc(b, reps);
    MulMonotone(b + 1, nb, reps);
    MulSucc(a, nb * reps);
    MulMonotone(a + 1, na, nb * reps);
  }

  /** Block `a` of the sweep holds the cells of batch size `a`. */
  lemma {:induction false} GridTrialsBlock(mode: string, sizes: seq<nat>, waits: seq<real>, reps: nat, a: nat, k: nat, at: nat)
    requires a < |sizes| && k < |waits| * reps && at == a * (|waits| * reps) + k
    ensures |WaitTrials(mode, sizes[a], waits, reps)| == |waits| * reps
    ensures at < |GridTrials(mode, sizes, waits, reps)|
    ensures GridTrials(mode, sizes, waits, reps)[at] == WaitTrials(mode, sizes[a], waits, reps)[k]
    decreases |sizes|
  {
    var m := |waits| * reps;
    var init := sizes[..|sizes| - 1];
    var head := GridTrials(mode, init, waits, reps);
    assert GridTrials(mode, sizes, waits, reps) == head + WaitTrials(mode, sizes[|sizes| - 1], waits, reps);
    GridTrialsLength(mode, init, waits, reps);
    MulAssoc(|init|, |waits|, reps);
    assert |head| == |init| * m;
    WaitTrialsLength(mode, sizes[a], waits, reps);
    WaitTrialsLength(mode, sizes[|sizes| - 1], waits, reps);
    if a < |init| {
      BlockBefore(a, k, m, |init|);
      GridTrialsBlock(mode, init, waits, reps, a, k, at);
    } else {
      assert at == |head| + k;
    }
  }

  /** Offset `k` of block `a` lies before block `n` when `a < n`. */
  lemma BlockBefore(a: nat, k: nat, m: nat, n: nat)
    requires a < n && k < m
    ensures a * m + k < n * m
  {
    MulSucc(a, m);
    MulMonotone(a + 1, n, m);
  }

  /** Trial number `(a * len(waits) + b) * reps + r` is batch size `a`, wait `b`, repetition `r + 1`. */
  lemma GridTrialsAt(mode: string, sizes: seq<nat>, waits: seq<real>, reps: nat, a: nat, b: nat, r: nat)
    requires a < |sizes| && b < |waits| && r < reps
    ensures (a * |waits| + b) * reps + r < |GridTrials(mode, sizes, waits, reps)|
    ensures GridTrials(mode, sizes, waits, reps)[(a * |waits| + b) * reps + r] == Trial(mode, sizes[a], waits[b], r + 1)
  {
    var k := b * reps + r;
    var at := (a * |waits| + b) * reps + r;
    CellIndex(a, b, r, |sizes|, |waits|, reps);
    GridTrialsBlock(mode, sizes, waits, reps, a, k, at);
    WaitTrialsAt(mode, sizes[a], waits, reps, b, r);
  }

  /** What the sweep does, in order: run a trial, and pause before every trial but the first. */
  datatype SweepEvent = Ran(trial: Trial) | Pause

  /** The events after the first `|done|` of `total` trials: a pause follows a run while `current < total`. */
  function Events(done: seq<Trial>, total: nat): seq<SweepEvent> {
    if done == [] then []
    else Events(done[..|done| - 1], total) + [Ran(done[|done| - 1])] + (if |done| < total then [Pause] else [])
  }

  /** `[f(x) for x in xs]`. */
  function Map<A, B>(f: A -> B, xs: seq<A>): (ys: seq<B>)
    ensures |ys| == |xs|
  {
    if xs == [] then [] else Map(f, xs[..|xs| - 1]) + [f(xs[|xs| - 1])]
  }

  /** The summaries of the trials, in order. */
  function Summaries(world: World, url: string, trials: seq<Trial>, hardware: string): seq<RunSummary> {
    Map(t => TrialSummary(world, url, t, hardware), trials)
  }

  /** The records of the trials, one batch per trial. */
  function Batches(world: World, url: string, trials: seq<Trial>, hardware: string): seq<seq<SessionResult>> {
    Map(t => BatchResults(world, url, t, hardware), trials)
  }

  /** The lines of `raw.jsonl` for a list of batches, batch after batch. */
  function RawLines(codec: Codec, batches: seq<seq<SessionResult>>): seq<string> {
    if batches == [] then []
    else RawLines(codec, batches[..|batches| - 1]) + JsonLines(codec, batches[|batches| - 1])
  }

  /**
   * `batchOf` and `summaryOf` give the records and the summary of any trial run against
   * `world`. The loops below are stated over these two, which keeps each proof about one
   * trial at a time.
   */
  ghost predicate Runs(world: World, url: string, hardware: string,
                       batchOf: Trial -> seq<SessionResult>, summaryOf: Trial -> RunSummary)
  {
    (forall t {:trigger BatchResults(world, url, t, hardware)} :: batchOf(t) == BatchResults(world, url, t, hardware)) &&
    (forall t {:trigger TrialSummary(world, url, t, hardware)} :: summaryOf(t) == TrialSummary(world, url, t, hardware))
  }

  /** The sweep's results after the trials in `done`: their summaries and events, in order. */
  ghost predicate Progress(summaryOf: Trial -> RunSummary, total: nat, done: seq<Trial>,
                           summaries: seq<RunSummary>, events: seq<SweepEvent>)
  {
    summaries == Map(summaryOf, done) && events == Events(done, total)
  }

  /** The output files after the trials in `done`, starting from `raw0`, `summary0` and `existed0`. */
  ghost predicate Written(codec: Codec, batchOf: Trial -> seq<SessionResult>, done: seq<Trial>,
                          summaries: seq<RunSummary>, raw0: seq<string>, summary0: seq<string>, existed0: bool,
                          raw: seq<string>, summary: seq<string>, exists_: bool)
  {
    raw == raw0 + RawLines(codec, Map(batchOf, done)) &&
    summary == summary0 + CsvAppend(codec, existed0, summaries) &&
    exists_ == (existed0 || summaries != [])
  }

  lemma MapSnoc<A, B>(f: A -> B, xs: seq<A>, x: A)
    ensures Map(f, xs + [x]) == Map(f, xs) + [f(x)]
  {
    assert (xs + [x])[..|xs|] == xs;
  }

  lemma ProgressStep(summaryOf: Trial -> RunSummary, total: nat, done: seq<Trial>,
                     summaries: seq<RunSummary>, events: seq<SweepEvent>, t: Trial)
    requires Progress(summaryOf, total, done, summaries, events)
    ensures Progress(summaryOf, total, done + [t], summaries + [summaryOf(t)],
                     events + [Ran(t)] + (if |done| + 1 < total then [Pause] else []))
  {
    MapSnoc(summaryOf, done, t);
    assert (done + [t])[..|done|] == done;
  }

  lemma WrittenStep(codec: Codec, batchOf: Trial -> seq<SessionResult>, done: seq<Trial>,
                    summaries: seq<RunSummary>, raw0: seq<string>, summary0: seq<string>, existed0: bool,
                    raw: seq<string>, summary: seq<string>, exists_: bool, t: Trial, s: RunSummary)
    requires Written(codec, batchOf, done, summaries, raw0, summary0, existed0, raw, summary, exists_)
    ensures Written(codec, batchOf, done + [t], summaries + [s], raw0, summary0, existed0,
                    raw + JsonLines(codec, batchOf(t)), summary + CsvAppend(codec, exists_, [s]), true)
  {
    MapSnoc(batchOf, done, t);
    RawLinesSnoc(codec, Map(batchOf, done), batchOf(t));
    AppendAssoc(raw0, RawLines(codec, Map(batchOf, done)), JsonLines(codec, batchOf(t)));
    CsvAppendTwice(codec, existed0, summaries, s);
    AppendAssoc(summary0, CsvAppend(codec, existed0, summaries), CsvAppend(codec, exists_, [s]));
  }

  lemma RawLinesSnoc(codec: Codec, batches: seq<seq<SessionResult>>, b: seq<SessionResult>)
    ensures RawLines(codec, batches + [b]) == RawLines(codec, batches) + JsonLines(codec, b)
  {
    assert (batches + [b])[..|batches|] == batches;
  }

  /** Over trials run against `world`, the two per-trial maps give the summaries and batches the sweep promises. */
  lemma {:induction false} RunsMap(world: World, url: string, hardware: string, batchOf: Trial -> seq<SessionResult>,
                                   summaryOf: Trial -> RunSummary, trials: seq<Trial>)
    requires Runs(world, url, hardware, batchOf, summaryOf)
    ensures Map(summaryOf, trials) == Summaries(world, url, trials, hardware)
    ensures Map(batchOf, trials) == Batches(world, url, trials, hardware)
  {
    if trials != [] {
      RunsMap(world, url, hardware, batchOf, summaryOf, trials[..|trials| - 1]);
      var t := trials[|trials| - 1];
      assert summaryOf(t) == TrialSummary(world, url, t, hardware);
      assert batchOf(t) == BatchResults(world, url, t, hardware);
    }
  }

  /**
   * The body of `run_grid_sweep`'s innermost loop: count the trial, run it, keep its summary,
   * and pause unless it was the last of the `total` trials.
   */
  method RunNext(world: World, out: OutputDir?, url: string, t: Trial, hardware: string, total: nat,
                 ghost batchOf: Trial -> seq<SessionResult>, ghost summaryOf: Trial -> RunSummary,
                 ghost done: seq<Trial>, ghost raw0: seq<string>, ghost summary0: seq<string>, ghost existed0: bool,
                 summaries0: seq<RunSummary>, events0: seq<SweepEvent>, current0: nat)
    returns (summaries: seq<RunSummary>, events: seq<SweepEvent>, current: nat)
    modifies out
    requires Runs(world, url, hardware, batchOf, summaryOf)
    requires current0 == |done| && Progress(summaryOf, total, done, summaries0, events0)
    requires out != null ==>
      Written(out.codec, batchOf, done, summaries0, raw0, summary0, existed0, out.raw, out.summary, out.summaryExists)
    ensures current == current0 + 1
    ensures Progress(summaryOf, total, done + [t], summaries, events)
    ensures out != null ==>
      Written(out.codec, batchOf, done + [t], summaries, raw0, summary0, existed0,
              out.raw, out.summary, out.summaryExists)
  {
    current := current0 + 1;
    ProgressStep(summaryOf, total, done, summaries0, events0, t);
    assert summaryOf(t) == TrialSummary(world, url, t, hardware);
    assert batchOf(t) == BatchResults(world, url, t, hardware);
    if out != null {
      WrittenStep(out.codec, batchOf, done, summaries0, raw0, summary0, existed0,
                  out.raw, out.summary, out.summaryExists, t, summaryOf(t));
    }
    var summary := RunSingleTest(world, out, url, t, hardware);
    summaries := summaries0 + [summary];
    events := events0 + [Ran(t)];
    if current < total {
      events := events + [Pause];
    }
  }

  /** The innermost loop of `run_grid_sweep`: repetitions 1..reps of batch size `n` and wait `w`. */
  method RunRepetitions(world: World, out: OutputDir?, url: string, mode: string, n: nat, w: real, reps: nat,
                        hardware: string, total: nat,
                        ghost batchOf: Trial -> seq<SessionResult>, ghost summaryOf: Trial -> RunSummary,
                        ghost done: seq<Trial>, ghost raw0: seq<string>, ghost summary0: seq<string>, ghost existed0: bool,
                        summaries0: seq<RunSummary>, events0: seq<SweepEvent>, current0: nat)
    returns (summaries: seq<RunSummary>, events: seq<SweepEvent>, current: nat)
    modifies out
    requires Runs(world, url, hardware, batchOf, summaryOf)
    requires current0 == |done| && Progress(summaryOf, total, done, summaries0, events0)
    requires out != null ==>
      Written(out.codec, batchOf, done, summaries0, raw0, summary0, existed0, out.raw, out.summary, out.summaryExists)
    ensures current == current0 + reps
    ensures Progress(summaryOf, total, done + RepTrials(mode, n, w, reps), summaries, events)
    ensures out != null ==>
      Written(out.codec, batchOf, done + RepTrials(mode, n, w, reps), summaries, raw0, summary0, existed0,
              out.raw, out.summary, out.summaryExists)
  {
    summaries, events, current := summaries0, events0, current0;
    assert done + RepTrials(mode, n, w, 0) == done;
    for rep := 1 to reps + 1
      invariant current == current0 + rep - 1
      invariant Progress(summaryOf, total, done + RepTrials(mode, n, w, rep - 1), summaries, events)
      invariant out != null ==>
        Written(out.codec, batchOf, done + RepTrials(mode, n, w, rep - 1), summaries, raw0, summary0, existed0,
                out.raw, out.summary, out.summaryExists)
    {
      summaries, events, current :=
        RunRepetition(world, out, url, mode, n, w, rep, hardware, total, batchOf, summaryOf, done,
                      raw0, summary0, existed0, summaries, events, current);
    }
  }

  /** Repetition `rep` of the innermost loop, after repetitions 1..rep-1. */
  method RunRepetition(world: World, out: OutputDir?, url: string, mode: string, n: nat, w: real, rep: nat,
                       hardware: string, total: nat,
                       ghost batchOf: Trial -> seq<SessionResult>, ghost summaryOf: Trial -> RunSummary,
                       ghost done: seq<Trial>, ghost raw0: seq<string>, ghost summary0: seq<string>, ghost existed0: bool,
                       summaries0: seq<RunSummary>, events0: seq<SweepEvent>, current0: nat)
    returns (summaries: seq<RunSummary>, events: seq<SweepEvent>, current: nat)
    modifies out
    requires rep >= 1
    requires Runs(world, url, hardware, batchOf, summaryOf)
    requires current0 == |done| + rep - 1
    requires Progress(summaryOf, total, done + RepTrials(mode, n, w, rep - 1), summaries0, events0)
    requires out != null ==>
      Written(out.codec, batchOf, done + RepTrials(mode, n, w, rep - 1), summaries0, raw0, summary0, existed0,
              out.raw, out.summary, out.summaryExists)
    ensures current == current0 + 1
    ensures Progress(summaryOf, total, done + RepTrials(mode, n, w, rep), summaries, events)
    ensures out != null ==>
      Written(out.codec, batchOf, done + RepTrials(mode, n, w, rep), summaries, raw0, summary0, existed0,
              out.raw, out.summary, out.summaryExists)
  {
    var t := Trial(mode, n, w, rep);
    ghost var ran := done + RepTrials(mode, n, w, rep - 1);
    AppendAssoc(done, RepTrials(mode, n, w, rep - 1), [t]);
    assert ran + [t] == done + RepTrials(mode, n, w, rep);
    summaries, events, current :=
      RunNext(world, out, url, t, hardware, total, batchOf, summaryOf, ran, raw0, summary0, existed0,
              summaries0, events0, current0);
  }

  /** The middle loop of `run_grid_sweep`: every wait of the grid, in order, for batch size `n`. */
  method RunWaits(world: World, out: OutputDir?, url: string, mode: string, n: nat, waits: seq<real>, reps: nat,
                  hardware: string, total: nat,
                  ghost batchOf: Trial -> seq<SessionResult>, ghost summaryOf: Trial -> RunSummary,
                  ghost done: seq<Trial>, ghost raw0: seq<string>, ghost summary0: seq<string>, ghost existed0: bool,
                  summaries0: seq<RunSummary>, events0: seq<SweepEvent>, current0: nat)
    returns (summaries: seq<RunSummary>, events: seq<SweepEvent>, current: nat)
    modifies out
    requires Runs(world, url, hardware, batchOf, summaryOf)
    requires current0 == |done| && Progress(summaryOf, total, done, summaries0, events0)
    requires out != null ==>
      Written(out.codec, batchOf, done, summaries0, raw0, summary0, existed0, out.raw, out.summary, out.summaryExists)
    ensures current == |done + WaitTrials(mode, n, waits, reps)|
    ensures Progress(summaryOf, total, done + WaitTrials(mode, n, waits, reps), summaries, events)
    ensures out != null ==>
      Written(out.codec, batchOf, done + WaitTrials(mode, n, waits, reps), summaries, raw0, summary0, existed0,
              out.raw, out.summary, out.summaryExists)
  {
    summaries, events, current := summaries0, events0, current0;
    ghost var ran := done;
    assert waits[..0] == [];
    assert done + [] == done;
    for j := 0 to |waits|
      invariant ran == done + WaitTrials(mode, n, waits[..j], reps)
      invariant current == |ran|
      invariant Progress(summaryOf, total, ran, summaries, events)
      invariant out != null ==>
        Written(out.codec, batchOf, ran, summaries, raw0, summary0, existed0, out.raw, out.summary, out.summaryExists)
    {
      WaitTrialsSnoc(mode, n, waits, reps, j);
      AppendAssoc(done, WaitTrials(mode, n, waits[..j], reps), RepTrials(mode, n, waits[j], reps));
      summaries, events, current :=
        RunRepetitions(world, out, url, mode, n, waits[j], reps, hardware, total, batchOf, summaryOf, ran,
                       raw0, summary0, existed0, summaries, events, current);
      ran := ran + RepTrials(mode, n, waits[j], reps);
    }
    assert waits[..|waits|] == waits;
  }

  /** The outer loop of `run_grid_sweep`: every batch size of the grid, in order. */
  method RunSizes(world: World, out: OutputDir?, url: string, sizes: seq<nat>, waits: seq<real>,
                  mode: string, reps: nat, hardware: string,
                  ghost batchOf: Trial -> seq<SessionResult>, ghost summaryOf: Trial -> RunSummary)
    returns (summaries: seq<RunSummary>, events: seq<SweepEvent>)
    modifies out
    requires Runs(world, url, hardware, batchOf, summaryOf)
    ensures Progress(summaryOf, |GridTrials(mode, sizes, waits, reps)|, GridTrials(mode, sizes, waits, reps), summaries, events)
    ensures out != null ==>
      Written(out.codec, batchOf, GridTrials(mode, sizes, waits, reps), summaries,
              old(out.raw), old(out.summary), old(out.summaryExists), out.raw, out.summary, out.summaryExists)
  {
    summaries := [];
    events := [];
    var total := |sizes| * |waits| * reps;
    GridTrialsLength(mode, sizes, waits, reps);
    var current := 0;
    ghost var raw0: seq<string>, summary0: seq<string>, existed0 := [], [], false;
    if out != null {
      raw0, summary0, existed0 := out.raw, out.summary, out.summaryExists;
    }
    ghost var ran: seq<Trial> := [];
    assert sizes[..0] == [];
    for i := 0 to |sizes|
      invariant ran == GridTrials(mode, sizes[..i], waits, reps)
      invariant current == |ran|
      invariant Progress(summaryOf, total, ran, summaries, events)
      invariant out != null ==>
        Written(out.codec, batchOf, ran, summaries, raw0, summary0, existed0, out.raw, out.summary, out.summaryExists)
    {
      GridTrialsSnoc(mode, sizes, waits, reps, i);
      summaries, events, current :=
        RunWaits(world, out, url, mode, sizes[i], waits, reps, hardware, total, batchOf, summaryOf, ran,
                 raw0, summary0, existed0, summaries, events, current);
      ran := ran + WaitTrials(mode, sizes[i], waits, reps);
    }
    assert sizes[..|sizes|] == sizes;
  }

  /**
   * `run_grid_sweep`: one summary per trial in sweep order (batch size outermost, then wait,
   * then repetition), a pause between consecutive trials, and every trial's records and row
   * appended to the output directory.
   */
  method RunGridSweep(world: World, out: OutputDir?, url: string, sizes: seq<nat>, waits: seq<real>,
                      mode: string, reps: nat, hardware: string)
    returns (summaries: seq<RunSummary>, events: seq<SweepEvent>)
    modifies out
    ensures summaries == Summaries(world, url, GridTrials(mode, sizes, waits, reps), hardware)
    ensures events == Events(GridTrials(mode, sizes, waits, reps), |GridTrials(mode, sizes, waits, reps)|)
    ensures out != null ==>
      out.raw == old(out.raw) + RawLines(out.codec, Batches(world, url, GridTrials(mode, sizes, waits, reps), hardware)) &&
      out.summary == old(out.summary) + CsvAppend(out.codec, old(out.summaryExists), summaries) &&
      out.summaryExists == (old(out.summaryExists) || summaries != [])
  {
    ghost var batchOf := t => BatchResults(world, url, t, hardware);
    ghost var summaryOf := t => TrialSummary(world, url, t, hardware);
    summaries, events := RunSizes(world, out, url, sizes, waits, mode, reps, hardware, batchOf, summaryOf);
    RunsMap(world, url, hardware, batchOf, summaryOf, GridTrials(mode, sizes, waits, reps));
  }

  /**
   * `run_comparison`: one HTTP trial and then one WebSocket trial of the same batch, both
   * as repetition 1.
   */
  method RunComparison(world: World, out: OutputDir?, url: string, n: nat, w: real, hardware: string)
    returns (http: RunSummary, ws: RunSummary)
    modifies out
    ensures http == TrialSummary(world, url, Trial("http", n, w, 1), hardware)
    ensures ws == TrialSummary(world, url, Trial("ws", n, w, 1), hardware)
    ensures out != null ==>
      out.raw == old(out.raw) + JsonLines(out.codec, BatchResults(world, url, Trial("http", n, w, 1), hardware))
                              + JsonLines(out.codec, BatchResults(world, url, Trial("ws", n, w, 1), hardware)) &&
      out.summary == old(out.summary) + CsvAppend(out.codec, old(out.summaryExists), [http, ws]) &&
      out.summaryExists
  {
    http, ws := RunPair(world, out, url, Trial("http", n, w, 1), Trial("ws", n, w, 1), hardware);
  }

  /**
   * Two trials run one after the other: the first one's records and row are written
   * first, and the summary file gets at most one header.
   */
  method RunPair(world: World, out: OutputDir?, url: string, first: Trial, second: Trial, hardware: string)
    returns (s1: RunSummary, s2: RunSummary)
    modifies out
    ensures s1 == TrialSummary(world, url, first, hardware)
    ensures s2 == TrialSummary(world, url, second, hardware)
    ensures out != null ==>
      out.raw == old(out.raw) + JsonLines(out.codec, BatchResults(world, url, first, hardware))
                              + JsonLines(out.codec, BatchResults(world, url, second, hardware)) &&
      out.summary == old(out.summary) + CsvAppend(out.codec, old(out.summaryExists), [s1, s2]) &&
      out.summaryExists
  {
    s1 := RunSingleTest(world, out, url, first, hardware);
    s2 := RunSingleTest(world, out, url, second, hardware);
    if out != null {
      PairRows(out.codec, old(out.summaryExists), old(out.summary), s1, s2);
    }
  }

  /** The summary lines of two single-trial appends, the second onto a file that now exists. */
  lemma PairRows(codec: Codec, existed: bool, summary0: seq<string>, s1: RunSummary, s2: RunSummary)
    ensures summary0 + CsvAppend(codec, existed, [s1]) + CsvAppend(codec, true, [s2])
         == summary0 + CsvAppend(codec, existed, [s1, s2])
  {
    CsvAppendTwice(codec, existed, [s1], s2);
    assert [s1] + [s2] == [s1, s2];
    AppendAssoc(summary0, CsvAppend(codec, existed, [s1]), CsvAppend(codec, true, [s2]));
  }
}
