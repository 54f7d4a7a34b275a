# openenv-scaling: the bookkeeping of the scaling benchmark, in Dafny

The repository measures how many concurrent sessions an OpenEnv benchmark server sustains.
A load tester opens N sessions over HTTP or WebSocket. Each session is one `reset` and one
`step` that sleeps for a requested wait. The tester records every session in `raw.jsonl`
and a per-run summary in `summary.csv`. Analysis scripts read those files back and find,
per infrastructure and wait, the largest batch size whose success rate reaches a threshold.

This project models the deterministic bookkeeping around the load, not the load itself:

- **Sessions and batches** (`sessions.dfy`). A session turns every exception, and every
  WebSocket `"error"` reply, into a failed record. A batch is `num_requests` sessions in
  request order, each stamped with the batch size and the hardware.
- **Summaries and percentiles** (`stats.dfy`, `summary.dfy`). `percentile` interpolates
  linearly over the sorted samples. `compute_summary` folds a batch into a `RunSummary`.
- **Sweeps and output files** (`sweep.dfy`). A run writes its records and its summary row.
  A grid sweep runs batch size × wait × repetition in a fixed order. A comparison runs
  HTTP then WebSocket. The two output files are append-only sequences of lines.
- **The WebSocket URL** (`ws_url.dfy`).
- **Result analysis**:
  - `summary_rows.dfy`: how the CSV is read back;
  - `analyze_results.dfy`: the maximum batch size and its median row, and the table cells and winner rule;
  - `plot_scaling_curves.dfy`: the per-batch-size success curve and the recorded maximum batch;
  - `plot_scaling_comparison.dfy`: the averaged success-rate map and the plotted series.
- **The experiment runner** (`run_experiment.dfy`): the infrastructure lookup, the
  argument vector of the load tester, the batch-size cap, the mode selection, the log
  entry and its insertion after the log's marker comment.
- **Pulling results from the hub** (`pull_from_hub.dfy`): target selection, the
  download/skip partition and the download counters.
- **The benchmark environment** (`benchmark_environment.dfy`, `client.dfy`, `models.dfy`):
  the server's per-session state machine and the client's parsing of replies.

`text.dfy`, `numeric.dfy` and `wrappers.dfy` hold the Python built-ins the core relies on:
`split`, `join`, `rstrip`, `str(int)`, `int(str)`, sums and means, `sorted` on a set of
integers, and `Option`/`Result`.

Latencies and rates are `real`. Rows read back with `row.get(key, default)` are records
with `Option` fields, where an absent key is `None`. The network, the clocks and the
identity sources (UUID, hash, pid, host name) are given as inputs. JSON and CSV
serialisation is an opaque `Codec` that turns one record into one line.

## Model

| member | source | states |
|---|---|---|
| Stats.SeqMin | tests/test_scaling.py:434 | `min` is one of the samples and no sample is below it |
| Stats.SeqMax | tests/test_scaling.py:435 | `max` is one of the samples and no sample is above it |
| Stats.Insert | tests/test_scaling.py:160 | inserting into an ascending list keeps it ascending and adds exactly that element (multiset) |
| Stats.SortReals | tests/test_scaling.py:160 | `sorted` returns an ascending permutation of its input |
| Stats.SortedUnique | tests/test_scaling.py:160 | two ascending permutations of the same samples are equal, so `sorted` is determined by the multiset |
| Stats.SortedEnds | tests/test_scaling.py:160-164 | the first sorted sample is the minimum and the last is the maximum |
| Stats.Ceiling | tests/test_scaling.py:162 | `min(f + 1, n - 1)` is `f + 1` when that is a valid index, otherwise `f` |
| Stats.Rank | tests/test_scaling.py:161 | the fractional rank `(n - 1) * p / 100` lies in `[0, n - 1]` for `0 <= p <= 100` |
| Stats.Percentile | tests/test_scaling.py:157-158 | the percentile of no samples is 0.0 |
| Stats.InterpolateBetween | tests/test_scaling.py:163 | the interpolated value lies between the two neighbouring sorted samples |
| Stats.InterpolateMonotone | tests/test_scaling.py:161-163 | interpolation does not decrease as the rank grows |
| Stats.PercentileBounds | tests/test_scaling.py:156-164 | every percentile of a non-empty list lies between its minimum and its maximum |
| Stats.PercentileZero | tests/test_scaling.py:156-164 | the 0th percentile is the minimum |
| Stats.PercentileHundred | tests/test_scaling.py:156-164 | the 100th percentile is the maximum |
| Stats.PercentileMonotone | tests/test_scaling.py:160-164 | a higher `p` never gives a smaller percentile, so p50 <= p90 <= p95 <= p99 |
| Stats.RankMonotone | tests/test_scaling.py:161 | the rank grows with `p` |
| Stats.PercentileOrderFree | tests/test_scaling.py:160 | the percentile depends only on the multiset of samples, not on their order |
| WsUrl.ConvertToWsUrl | tests/test_scaling.py:167-176 | the converted URL always ends in `/ws` and starts with `ws://` or `wss://` |
| WsUrl.ConvertIdempotent | tests/test_scaling.py:167-176 | converting an already converted URL returns it unchanged |
| WsUrl.ConvertHttp | tests/test_scaling.py:170-171 | `http://rest` becomes `ws://rest/ws` |
| WsUrl.ConvertHttps | tests/test_scaling.py:172-173 | `https://rest` becomes `wss://rest/ws` |
| WsUrl.ConvertIgnoresTrailingSlash | tests/test_scaling.py:169 | a trailing slash does not change the result |
| WsUrl.ConvertBareHost | tests/test_scaling.py:176 | a URL without a known scheme is given `ws://` and `/ws` |
| Text.RStrip | tests/test_scaling.py:169 | `rstrip` returns a prefix that does not end in a stripped character, and drops only stripped characters |
| Text.SplitJoin | tests/test_scaling.py:765 | splitting a comma-join of comma-free pieces gives the pieces back |
| Text.ParseDecimalString | tests/test_scaling.py:765 | `int(str(i)) == i` for every integer |
| Text.JoinSplit | tests/test_scaling.py:765 | joining the parts of `s.split(sep)` with `sep` gives `s` back |
| Text.DecimalStringStripped | tests/test_scaling.py:765 | `str(i)` has no surrounding whitespace, so `int()` reads it whole |
| Numeric.MeanBounds | experiments/scripts/analyze_results.py:115 | the mean of non-empty values that all lie in `[lo, hi]` lies in `[lo, hi]` |
| Numeric.SortedList | experiments/scripts/analyze_results.py:113 | `sorted` of a key set is strictly increasing and holds exactly the keys |
| Sessions.HttpSession | tests/test_scaling.py:189-247 | every record carries the id, mode `http`, stamp, wait and total latency; connect latency is 0; success iff both calls returned; an exception becomes a failure with its class name and text and zero phase latencies |
| Sessions.WsSession | tests/test_scaling.py:274-350 | as for HTTP with mode `ws`; an `"error"` reply to reset or to step is a failure like a raised exception; a success carries the three measured phase latencies |
| Sessions.StampResults | tests/test_scaling.py:263-265 | every record, in order, gets the batch size and the hardware, and nothing else changes |
| Sessions.RunHttpTest | tests/test_scaling.py:250-266 | the HTTP batch is session `i` for `i` in `0..num_requests`, stamped |
| Sessions.RunWsTest | tests/test_scaling.py:353-368 | the WebSocket batch is the same, against the converted URL |
| Sessions.BatchShape | tests/test_scaling.py:260-266 | a batch has exactly `num_requests` records; record `i` answers request `i` and carries the batch size, hardware, mode and requested wait |
| Sessions.HttpBatchHasNoConnectPhase | tests/test_scaling.py:409 | an HTTP batch has no positive connect latency, so its connect statistics stay 0 |
| Summary.Successful | tests/test_scaling.py:387 | a record is kept iff it is in the batch and successful; no more records than the batch |
| Summary.SuccessfulConcat | tests/test_scaling.py:387 | the filter distributes over concatenation and keeps a single record iff it succeeded, so it keeps order and multiplicity |
| Summary.SuccessfulCounts | tests/test_scaling.py:387-388 | each successful record occurs in `successful` exactly as often as in the batch, and each failed one in `failed` |
| Summary.Failed | tests/test_scaling.py:388 | a record is kept iff it is in the batch and failed; no more records than the batch |
| Summary.FailedConcat | tests/test_scaling.py:388 | the filter distributes over concatenation and keeps a single record iff it failed, so it keeps order and multiplicity |
| Summary.PartitionCount | tests/test_scaling.py:387-388 | successful + failed == number of records |
| Summary.PositiveLatencies | tests/test_scaling.py:409-411 | every sample is positive, a value is a sample iff some record has that positive latency in the phase, and there are no more samples than records |
| Summary.PositiveLatenciesConcat | tests/test_scaling.py:409-411 | the samples distribute over concatenation and a single record contributes its latency iff it is positive, so order and multiplicity are those of the records |
| Summary.NoPositiveLatency | tests/test_scaling.py:409-411 | a phase with no positive latency has no samples |
| Summary.TotalLatencies | tests/test_scaling.py:412 | one total latency per successful record, in order |
| Summary.Distinct | tests/test_scaling.py:448-450 | `set(v for v in vals if v)` holds exactly the non-falsy values and is no larger than the list |
| Summary.Pids | tests/test_scaling.py:448 | the pids of the records, in order |
| Summary.Hashes | tests/test_scaling.py:449 | the session hashes of the records, in order |
| Summary.Hosts | tests/test_scaling.py:450 | the host URLs of the records, in order |
| Summary.ComputeSummary | tests/test_scaling.py:376-452 | the early return and the conditional field assignments build exactly the declarative summary `Summarize` |
| Summary.SummaryCounts | tests/test_scaling.py:399-401 | successful + failed == number of results; the error rate is failed / number, 0.0 for no results, and lies in [0, 1] |
| Summary.SummaryNoSuccess | tests/test_scaling.py:405-406 | without a success every latency, throughput and distinct-count field keeps its zero default |
| Summary.SummaryTotalOrdered | tests/test_scaling.py:433-440 | total min <= p50 <= p90 <= p95 <= p99 <= max, and min <= avg <= max |
| Summary.TotalOfOrdered | tests/test_scaling.py:433-440 | the same ordering for the total statistics of any sample list |
| Summary.SummaryPhase | tests/test_scaling.py:409-430 | a phase's percentiles are over the positive latencies of successful records only; they are ordered; p50 is positive iff such a latency exists |
| Summary.SummaryThroughput | tests/test_scaling.py:443-445 | throughput is 0 unless the wall time is positive; then it is successes / wall time and N × wait / wall time |
| Summary.SummaryDistinctBounded | tests/test_scaling.py:448-450 | each distinct count is at most the number of successes |
| Summary.SummaryDistinctPids | tests/test_scaling.py:448 | the pid count is the number of distinct non-zero pids among successful records |
| Sweep.JsonLines | tests/test_scaling.py:463-464 | one line per record, in order |
| Sweep.CsvRows | tests/test_scaling.py:479-480 | one row per summary, in order |
| Sweep.CsvAppendTwice | tests/test_scaling.py:467-480 | two appends write what one append of both lists writes, with a single header |
| Sweep.OutputDir.constructor | tests/test_scaling.py:577-580 | an output directory starts with the given file contents |
| Sweep.OutputDir.WriteJsonl | tests/test_scaling.py:460-464 | the JSONL file gains one line per record; earlier lines and the summary file are unchanged |
| Sweep.OutputDir.WriteCsvSummary | tests/test_scaling.py:467-480 | nothing for no summaries; otherwise a header only if the file is new, then one row each; earlier lines are kept |
| Sweep.RunSingleTest | tests/test_scaling.py:549-595 | the summary of the trial's batch; with an output directory its records and its row are appended |
| Sweep.RepTrials | tests/test_scaling.py:624 | one trial per repetition |
| Sweep.RepTrialsAt | tests/test_scaling.py:624 | repetition `r` of a cell is numbered `r + 1` |
| Sweep.WaitTrialsLength | tests/test_scaling.py:623-624 | a batch size's cells hold `len(wait_grid) * reps` trials |
| Sweep.WaitTrialsAt | tests/test_scaling.py:623-624 | trial `b * reps + r` of a batch size is wait `b`, repetition `r + 1` |
| Sweep.GridTrialsLength | tests/test_scaling.py:612 | a sweep runs `len(requests_grid) * len(wait_grid) * repetitions` trials |
| Sweep.GridTrialsBlock | tests/test_scaling.py:622-624 | block `a` of the sweep holds the cells of batch size `a` |
| Sweep.GridTrialsAt | tests/test_scaling.py:622-624 | trial `(a * len(waits) + b) * reps + r` is batch size `a`, wait `b`, repetition `r + 1` |
| Sweep.RunNext | tests/test_scaling.py:625-643 | one inner step counts the trial, runs it, keeps its summary, writes its lines and pauses unless it was the last |
| Sweep.RunRepetition | tests/test_scaling.py:624-643 | repetition `rep` extends the progress by one trial |
| Sweep.RunRepetitions | tests/test_scaling.py:624-643 | the inner loop runs repetitions 1..reps in order |
| Sweep.RunWaits | tests/test_scaling.py:623-643 | the middle loop runs every wait in grid order |
| Sweep.RunSizes | tests/test_scaling.py:622-643 | the outer loop runs every batch size in grid order |
| Sweep.RunGridSweep | tests/test_scaling.py:598-645 | one summary per trial in sweep order; a pause between consecutive trials and none after the last; every trial's records and row appended in order |
| Sweep.RunComparison | tests/test_scaling.py:648-681 | an HTTP trial then a WebSocket trial of the same batch, both repetition 1, written in that order under one header |
| Sweep.RunPair | tests/test_scaling.py:668-677 | two trials run in order: the first one's records and row are written first |
| Sweep.PairRows | tests/test_scaling.py:582 | two single-row appends, the second onto an existing file, equal one two-row append |
| SummaryRows.Coerce | experiments/scripts/analyze_results.py:59-65 | a field with "." goes to `float()`; an integer field reads as its value; anything else stays as its text |
| SummaryRows.CoerceDecimal | experiments/scripts/analyze_results.py:63 | a field written as `str(i)` reads back as `i` |
| SummaryRows.CoerceCellIdempotent | experiments/scripts/analyze_results.py:58-65 | coercing an already coerced field changes nothing |
| SummaryRows.CoerceRow | experiments/scripts/analyze_results.py:58-65 | each field of the row is coerced in place |
| SummaryRows.InBatchMembers | experiments/scripts/analyze_results.py:104-107 | a batch's rows are exactly the rows of that batch size |
| SummaryRows.BatchSizesMembers | experiments/scripts/analyze_results.py:113 | the dictionary keys are exactly the batch sizes of the rows |
| SummaryRows.InBatchNonEmpty | experiments/scripts/analyze_results.py:113-115 | a batch size that occurs has rows, so its mean is defined |
| SummaryRows.InBatchEmpty | experiments/scripts/analyze_results.py:104-107 | a batch size that does not occur has no rows |
| SummaryRows.InBatchSnoc | experiments/scripts/analyze_results.py:104-107 | one more row extends exactly the group of its own batch size |
| AnalyzeResults.FilteredMembers | experiments/scripts/analyze_results.py:95-97 | the filter keeps exactly the rows of the mode whose wait is within 0.01 of the target |
| AnalyzeResults.FilteredNone | experiments/scripts/analyze_results.py:99-100 | with no matching row nothing is left |
| AnalyzeResults.RatedRows | experiments/scripts/analyze_results.py:106-107 | each row is paired with `1 - error_rate` |
| AnalyzeResults.Rates | experiments/scripts/analyze_results.py:114 | `[x[0] for x in entries]` |
| AnalyzeResults.InsertByRate | experiments/scripts/analyze_results.py:120 | inserting keeps the entries sorted by rate and adds exactly that entry |
| AnalyzeResults.InsertRates | experiments/scripts/analyze_results.py:120 | inserting an entry adds its rate to the multiset of rates |
| AnalyzeResults.SortByRate | experiments/scripts/analyze_results.py:120 | sorting by rate gives a permutation sorted by rate |
| AnalyzeResults.SortRates | experiments/scripts/analyze_results.py:120 | sorting keeps the multiset of rates |
| AnalyzeResults.MedianEntryRank | experiments/scripts/analyze_results.py:120-121 | the median entry is one of the group's and its rate is the `len // 2`-th smallest |
| AnalyzeResults.SortedRates | experiments/scripts/analyze_results.py:120 | the rates of a list sorted by rate are ascending |
| AnalyzeResults.LastWhere | experiments/scripts/analyze_results.py:113-118 | the walk's result, if any, is a key that passes |
| AnalyzeResults.LastWhereSnoc | experiments/scripts/analyze_results.py:117-118 | a passing key overwrites the result; a failing one leaves it |
| AnalyzeResults.LastWhereLargest | experiments/scripts/analyze_results.py:113-118 | over ascending keys the walk finds nothing only if no key passes, otherwise no larger key passes |
| AnalyzeResults.ComputeMaxBatchSize | experiments/scripts/analyze_results.py:83-123 | the filter, early return, grouping loop and walk compute `MaxBatch` |
| AnalyzeResults.GroupByBatch | experiments/scripts/analyze_results.py:103-107 | the grouping loop builds, per batch size, its (rate, row) entries in row order |
| AnalyzeResults.GroupOfSnoc | experiments/scripts/analyze_results.py:104-107 | row `i` extends the group of its batch size and no other |
| AnalyzeResults.GroupStep | experiments/scripts/analyze_results.py:104-107 | one iteration keeps the dictionary equal to the grouping of the rows seen |
| AnalyzeResults.GroupStepAt | experiments/scripts/analyze_results.py:107 | the list of one batch size after row `i` is its group over the rows up to `i` |
| AnalyzeResults.WalkBatches | experiments/scripts/analyze_results.py:110-121 | the loop over the sorted keys returns the last passing batch size and its median row |
| AnalyzeResults.VisitBatch | experiments/scripts/analyze_results.py:114-121 | a passing batch size replaces the result with itself and its median row |
| AnalyzeResults.MaxBatchNoRows | experiments/scripts/analyze_results.py:99-100 | no matching row gives `(None, None)` |
| AnalyzeResults.MaxBatchLargest | experiments/scripts/analyze_results.py:103-123 | the batch is None iff the row is; None iff no batch size passes; otherwise it passes and no larger one does, whatever smaller sizes do |
| AnalyzeResults.MaxBatchRow | experiments/scripts/analyze_results.py:119-121 | the reported row is an input row of the mode, near the wait and of the reported batch size |
| AnalyzeResults.MaxBatchRowIsMedian | experiments/scripts/analyze_results.py:119-121 | the reported row has the median (`len // 2`-th smallest) success share of its batch |
| AnalyzeResults.CellText | experiments/scripts/analyze_results.py:148 | the cell is "-" iff the maximum is falsy (None or 0), otherwise text that reads back as the maximum |
| AnalyzeResults.Compare | experiments/scripts/analyze_results.py:177-183 | the ratio exists iff both maxima are truthy and is ws/http; the winner is WS, HTTP, Tie or "-" exactly as the rule says |
| AnalyzeResults.CompareSwap | experiments/scripts/analyze_results.py:177-183 | swapping the protocols swaps the winner and inverts the ratio |
| ScalingCurves.SurvivorsMembers | experiments/scripts/plot_scaling_curves.py:94-100 | the survivors are exactly the rows with the mode, the wait within 0.01, `num_requests > 0` and `successful > 0` |
| ScalingCurves.SurvivorsNone | experiments/scripts/plot_scaling_curves.py:102-103 | with no row passing, nothing survives |
| ScalingCurves.PercentBounds | experiments/scripts/plot_scaling_curves.py:109 | an error rate in [0, 1] gives a percentage in [0, 100] |
| ScalingCurves.Percents | experiments/scripts/plot_scaling_curves.py:109 | one percentage per row, in order |
| ScalingCurves.Groups | experiments/scripts/plot_scaling_curves.py:113-114 | one group of percentages per listed batch size |
| ScalingCurves.GroupsNonEmpty | experiments/scripts/plot_scaling_curves.py:106-114 | every occurring batch size has a non-empty group |
| ScalingCurves.AveragesAt | experiments/scripts/plot_scaling_curves.py:114 | the `k`-th average is the mean of the `k`-th group |
| ScalingCurves.GroupStep | experiments/scripts/plot_scaling_curves.py:107-110 | one iteration keeps `batch_stats` equal to the grouping of the rows seen |
| ScalingCurves.GroupStepAt | experiments/scripts/plot_scaling_curves.py:110 | the list of one batch size after row `i` is its percentages over the rows up to `i` |
| ScalingCurves.ComputeScalingData | experiments/scripts/plot_scaling_curves.py:82-116 | the filter, early return, grouping loop, sort and averaging compute `ScalingData` |
| ScalingCurves.GroupRates | experiments/scripts/plot_scaling_curves.py:106-110 | the grouping loop builds, per batch size, its percentages in row order |
| ScalingCurves.AverageGroups | experiments/scripts/plot_scaling_curves.py:114 | one mean per listed batch size, of that size's list |
| ScalingCurves.AveragesOfStats | experiments/scripts/plot_scaling_curves.py:114 | averaging the dictionary's lists gives the averages of the groups |
| ScalingCurves.GroupsAreStats | experiments/scripts/plot_scaling_curves.py:113-114 | the groups of the sorted sizes are the dictionary's lists and none is empty |
| ScalingCurves.SizesInStats | experiments/scripts/plot_scaling_curves.py:113 | every sorted size is a key with a non-empty list |
| ScalingCurves.ScalingDataEmpty | experiments/scripts/plot_scaling_curves.py:102-103 | no surviving row gives `([], [])` |
| ScalingCurves.ScalingDataShape | experiments/scripts/plot_scaling_curves.py:112-116 | the sizes are strictly increasing and positive, exactly those of the survivors, and there is one rate per size |
| ScalingCurves.ScalingDataSizes | experiments/scripts/plot_scaling_curves.py:94-113 | a size is listed iff some surviving row has it |
| ScalingCurves.ScalingDataRate | experiments/scripts/plot_scaling_curves.py:106-114 | the `k`-th rate is the mean percentage of the surviving rows of the `k`-th size |
| ScalingCurves.ScalingDataRateBounds | experiments/scripts/plot_scaling_curves.py:106-114 | with error rates in [0, 1] every rate lies in [0, 100] |
| ScalingCurves.GroupMeanBound | experiments/scripts/plot_scaling_curves.py:114 | the mean percentage of one batch size lies in [0, 100] |
| ScalingCurves.Zip | experiments/scripts/plot_scaling_curves.py:159 | `zip` pairs elements index by index up to the shorter list |
| ScalingCurves.LastIndexAtThreshold | experiments/scripts/plot_scaling_curves.py:159-161 | the position of the last pair at the threshold: every later pair is below it; None iff every pair is below |
| ScalingCurves.RecordMaxBatch | experiments/scripts/plot_scaling_curves.py:158-161 | the loop sets the key to the last batch at the threshold and leaves the map unchanged when there is none |
| ScalingCurves.LastAtThresholdSnoc | experiments/scripts/plot_scaling_curves.py:160-161 | a pair at the threshold overwrites the recorded batch |
| ScalingCurves.LastAtThresholdLargest | experiments/scripts/plot_scaling_curves.py:159-161 | over increasing sizes the recorded batch reaches the threshold and no larger size does; nothing is recorded iff no rate does |
| ScalingCurves.StyleOf | experiments/scripts/plot_scaling_curves.py:136-140 | an unknown id is labelled with itself, in grey `#7f8c8d` with marker `o` |
| RunExperiment.GetInfrastructureConfig | experiments/scripts/run_experiment.py:42-47 | Ok iff some entry has the id, and then it is the first such entry; otherwise the `ValueError` message |
| RunExperiment.DecimalStrings | experiments/scripts/run_experiment.py:65 | `str` of each batch size, in order |
| RunExperiment.IntGridRoundTrip | experiments/scripts/run_experiment.py:65 | the load tester's `int` parse of the comma-joined grid gives the batch sizes back |
| RunExperiment.ParseAll | experiments/scripts/run_experiment.py:223 | `int` of each `str` gives the list back |
| RunExperiment.BuildCommand | experiments/scripts/run_experiment.py:50-77 | the list built and then extended is `CommandLine` |
| RunExperiment.CommandShape | experiments/scripts/run_experiment.py:61-77 | 14 fixed-position tokens (each option then its value, the grids comma-joined in order), then `--compare` alone or `--mode` and the mode: 15 or 16 tokens |
| RunExperiment.CommandValues | experiments/scripts/run_experiment.py:64-68 | the grid, the wait texts (when comma-free), the repetitions and the timeout read back as given |
| RunExperiment.CapBatchSizes | experiments/scripts/run_experiment.py:229-230 | the capped list is no longer than the input |
| RunExperiment.CapMembers | experiments/scripts/run_experiment.py:229-230 | it keeps exactly the sizes at most twice `max_expected_batch` (512 when absent) |
| RunExperiment.CapConcat | experiments/scripts/run_experiment.py:230 | the cap keeps order: it distributes over concatenation |
| RunExperiment.CapIdentity | experiments/scripts/run_experiment.py:230 | a list within the cap is unchanged |
| RunExperiment.CapIdempotent | experiments/scripts/run_experiment.py:230 | capping twice is capping once |
| RunExperiment.SelectMode | experiments/scripts/run_experiment.py:240-241 | compare iff no mode was given; the mode is the given one, or "ws" when it is absent or empty |
| RunExperiment.SelectedCommandTail | experiments/scripts/run_experiment.py:240-241 | without a mode the command ends in `--compare` and has 15 tokens; with one it ends in `--mode <mode>` |
| RunExperiment.EndLine | experiments/scripts/run_experiment.py:93 | the End line reads `[in progress]` without an end time, else the end time |
| RunExperiment.LogEntryShape | experiments/scripts/run_experiment.py:95-128 | the entry starts with its `## Run:` heading, carries the End line and ends with the `---` rule |
| RunExperiment.SplitAtMarker | experiments/scripts/run_experiment.py:139-140 | text containing the marker splits into at least two parts, so `parts[1]` exists |
| RunExperiment.AppendWithoutMarker | experiments/scripts/run_experiment.py:142-144 | without the marker the result is content + "\n" + entry |
| RunExperiment.FirstPartAfter | experiments/scripts/run_experiment.py:140-141 | `parts[1]` runs from the first marker to the next one, or to the end |
| RunExperiment.AppendAtFirstMarker | experiments/scripts/run_experiment.py:139-141 | with the marker, the result is the text up to the first marker, the marker, a newline, the entry, and the text up to the next marker |
| RunExperiment.AppendOneMarker | experiments/scripts/run_experiment.py:139-141 | with exactly one marker the entry goes right after it and all original text is kept, in order |
| RunExperiment.AppendDropsTail | experiments/scripts/run_experiment.py:140-141 | with two markers, the text from the second marker on is lost |
| RunExperiment.AppendFirstPreserves | experiments/scripts/run_experiment.py:138-144 | the insertion cut at the first marker only keeps the whole log and inserts "\n" + entry at one point |
| RunExperiment.AppendFirstAgrees | experiments/scripts/run_experiment.py:138-144 | with at most one marker the corrected and the written insertion agree |
| PullFromHub.Targets | experiments/scripts/pull_from_hub.py:56-60 | the target list is no longer than the listing |
| PullFromHub.TargetsMembers | experiments/scripts/pull_from_hub.py:56-60 | the targets are exactly the files under `results/` or `reports/` that do not end in `/` |
| PullFromHub.TargetsConcat | experiments/scripts/pull_from_hub.py:56-60 | selection keeps repository order: it distributes over concatenation |
| PullFromHub.WithPrefixMembers | experiments/scripts/pull_from_hub.py:64 | the filtered list holds exactly the targets starting with the prefix |
| PullFromHub.SelectedMembers | experiments/scripts/pull_from_hub.py:63-64 | a selected file is a target that starts with the filter when a non-empty one is set |
| PullFromHub.PartitionTargets | experiments/scripts/pull_from_hub.py:73-81 | the loop builds the to-download and skipped lists in order |
| PullFromHub.PartitionExact | experiments/scripts/pull_from_hub.py:76-81 | every target is in exactly one list (multisets add up), so the counts add up |
| PullFromHub.SkippedMembers | experiments/scripts/pull_from_hub.py:78-81 | a target is skipped iff its local copy exists and `force` is off, otherwise downloaded |
| PullFromHub.ForceDownloadsAll | experiments/scripts/pull_from_hub.py:78 | with `force` every target is downloaded and none skipped |
| PullFromHub.OutcomesAddUp | experiments/scripts/pull_from_hub.py:112-131 | each file either downloads or fails |
| PullFromHub.DownloadAll | experiments/scripts/pull_from_hub.py:109-131 | every file is tried once in order; downloaded counts successes, errors failures, and they add up to the number of files |
| PullFromHub.Pull | experiments/scripts/pull_from_hub.py:49-131 | a listing failure exits; no targets, a dry run or nothing new end without a download; otherwise the loop's counters are reported |
| ScalingComparison.SuccessRateBounds | experiments/scripts/plot_scaling_comparison.py:28-29 | with non-negative counts the rate lies in [0, 100], and it is 100 when nothing failed |
| ScalingComparison.KeysOfMembers | experiments/scripts/plot_scaling_comparison.py:31 | the keys are exactly the (batch size, wait) pairs of the rows |
| ScalingComparison.RatesAtNonEmpty | experiments/scripts/plot_scaling_comparison.py:31-36 | a key has rates iff it occurs in the rows |
| ScalingComparison.RatesAtBounds | experiments/scripts/plot_scaling_comparison.py:29-31 | every collected rate lies in [0, 100] |
| ScalingComparison.GroupStep | experiments/scripts/plot_scaling_comparison.py:31 | one iteration keeps `results` equal to the grouping of the rows seen |
| ScalingComparison.GroupRates | experiments/scripts/plot_scaling_comparison.py:19-31 | the row loop groups the rates by key, in row order |
| ScalingComparison.AverageRates | experiments/scripts/plot_scaling_comparison.py:34-36 | every key's list is replaced by its mean, keys unchanged |
| ScalingComparison.LoadSuccessRates | experiments/scripts/plot_scaling_comparison.py:17-38 | the keys are exactly the pairs in the rows, each mapped to the mean of its rows' rates |
| ScalingComparison.AveragedBounds | experiments/scripts/plot_scaling_comparison.py:34-36 | every averaged value lies in [0, 100] |
| ScalingComparison.AtWait | experiments/scripts/plot_scaling_comparison.py:53 | the kept batch sizes are exactly those with an entry at the wait |
| ScalingComparison.AtWaitIncreasing | experiments/scripts/plot_scaling_comparison.py:47-53 | filtering keeps a strictly increasing list strictly increasing |
| ScalingComparison.ValuesAt | experiments/scripts/plot_scaling_comparison.py:54 | `y[k]` is the value at `(x[k], wait)` |
| ScalingComparison.SeriesShape | experiments/scripts/plot_scaling_comparison.py:47-57 | x is strictly increasing and is exactly the batch sizes with an entry at the wait; y is aligned with x |
| ScalingComparison.CurveFromRows | experiments/scripts/plot_scaling_comparison.py:47-57 | a batch size is plotted iff some row has it at the wait, at the mean rate of its repetitions |
| BenchmarkEnvironment.Prefix | benchmark/server/benchmark_environment.py:54-56 | `s[:12]` is the first 12 characters, or all of a shorter text |
| BenchmarkEnvironment.HostUrl | benchmark/server/benchmark_environment.py:61-67 | `hostname:PORT` with PORT defaulting to 8000, or "unknown" iff the lookup fails |
| BenchmarkEnvironment.Environment.constructor | benchmark/server/benchmark_environment.py:51-59 | the session hash is the first 12 hex digits; the episode is the session id at step 0 |
| BenchmarkEnvironment.Environment.Report | benchmark/server/benchmark_environment.py:104-110 | every observation carries the instance's pid, session hash and host URL |
| BenchmarkEnvironment.Environment.Reset | benchmark/server/benchmark_environment.py:69-84 | the step count goes back to 0 for the same episode; the observation reports 0 wait and 0 steps |
| BenchmarkEnvironment.Environment.Step | benchmark/server/benchmark_environment.py:86-110 | the count grows by exactly 1; the observation reports the requested wait verbatim and the new count; it sleeps iff the wait is positive |
| BenchmarkEnvironment.Environment.CurrentState | benchmark/server/benchmark_environment.py:112-120 | the state property returns the current episode id and step count |
| Client.StepRequest | benchmark/client.py:40-44 | the body has exactly the key `wait_seconds`, holding the action's wait |
| Client.StepRequestRoundTrip | benchmark/client.py:40-44 | the server reads back exactly the wait sent |
| Client.ParseResult | benchmark/client.py:46-64 | `done` defaults to False, `reward` to None, shared by observation and result; a missing observation gives every default |
| Client.ParseResultFieldwise | benchmark/client.py:48-57 | each present field is taken, each absent one gets its default (0.0, 0, "", "", 0, {}) |
| Client.ParseEncodedObservation | benchmark/client.py:46-64 | parsing a complete reply gives back the observation sent |
| Client.ParseState | benchmark/client.py:66-71 | a missing episode id stays None and a missing step count reads 0 |
| Client.ParseEncodedState | benchmark/client.py:66-71 | parsing a complete state reply gives back the state sent |

## Left out

- Network and concurrency: HTTP and WebSocket calls, `asyncio.gather`, `wait_for` and `sleep`. A session's outcome is an input, and gathering is a map over `0..n-1`.
- Clocks: `perf_counter`, `now_iso` and `datetime`. Wall times, timestamps and the formatted dates of a log entry are inputs.
- Floating point: latencies and rates are exact reals, so rounding and `float()` parsing are not modelled. The `float()` branch of CSV coercion keeps the text without interpreting it.
- Formatting: f-string widths and padding of the table rows, `print` output and console progress lines.
- Plotting: every matplotlib call, and the figure part of the comparison script.
- Filesystem, YAML and subprocess: `find_latest_results`, directory walks, `load_config`, `subprocess.run`, and the `open`, `mkdir` and `exists` calls around the modelled string and line logic. File existence is given as a predicate.
- `experiments/scripts/push_to_hub.py` is not part of this model: it is a filesystem walk plus upload calls.
- Library serialisation: `json.dumps`, `csv.DictWriter` and the CSV header are an opaque `Codec`, one line per record.
- The identity sources of the environment (`uuid4`, `sha256`, `getpid`, `gethostname`, `PORT`) are constructor inputs. A failing host-name lookup is an absent host name.
- BenchmarkEnvironment.Environment.Step: the state is a value, so the aliasing between the returned `state` object and the instance's own state is not modelled.
- AnalyzeResults.SortByRate: Python's sort is stable, but the model proves only that the result is sorted by rate and is a permutation, not that equal rates keep their order.
- RunExperiment.CommandLine: the wait grid is given as its `str` texts, because float-to-text conversion is not modelled.
- `reps = args.reps or ...` and `timeout = args.timeout or ...` fall back to the config for 0 and None. The model takes the resulting values as inputs.
- The `websockets`-missing exits of `ws_session`, `run_single_test` and `run_comparison` are not modelled. The model assumes the library is installed.
- SummaryRows.Row, AnalyzeResults.ComputeMaxBatchSize, ScalingCurves.ComputeScalingData: rows are taken as fully numeric. A field that `str(float)` writes in exponent notation (an error rate of `5e-05`) has no ".", fails `int()` and stays text. Then `1 - row.get("error_rate", 0)` and the wait comparison raise `TypeError`, and that error path is not modelled.
- Sessions.World: a session's outcome is a function of the URL, the trial and the request index, so two identical grid entries get identical batches. Real sessions vary from run to run.
- Text.ParseInt: `int()` is modelled on ASCII text only. Python also strips Unicode whitespace and accepts Unicode digits and `_` separators, none of which the load tester writes.
- ScalingComparison.LoadSuccessRates takes rows already converted by `int()` and `float()`. The `ValueError` an unparsable field raises is not modelled.
- The `main` functions and argument parsing are modelled only where listed above (the batch-size cap and the mode selection).

## Findings

| source | as written | input that shows it | evidently intended | confidence | as-written member | corrected member |
|---|---|---|---|---|---|---|
| experiments/scripts/run_experiment.py:140-141 | `content.split(marker)` keeps only `parts[0]` and `parts[1]` | a log holding the marker twice, `M + M + "z"`: the result is `M + "\ne"`, so the second marker and `"z"` are lost | split at the first marker only, so that every line of the existing log is kept | not executed | RunExperiment.AppendDropsTail | RunExperiment.AppendFirstPreserves |
