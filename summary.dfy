/**
 * The per-session record of the scaling test and `compute_summary`, which folds one
 * batch of session records into the per-configuration summary.
 */
module Summary {
  import opened Wrappers
  import opened Numeric
  import opened Stats

  /** `SessionResult`: one client session, with its latency breakdown in seconds. */
  datatype SessionResult = SessionResult(
    requestId: int,
    mode: string,
    timestamp: string,
    waitRequested: real,
    batchSize: int,
    hardware: string,
    connectLatency: real,
    resetLatency: real,
    stepLatency: real,
    totalLatency: real,
    waitedSeconds: real,
    pid: int,
    sessionHash: string,
    hostUrl: string,
    success: bool,
    errorType: Option<string>,
    errorMessage: Option<string>)

  /** p50/p95/p99 of one phase's latency (`connect_*`, `reset_*`, `step_*`). */
  datatype PhaseStats = PhaseStats(p50: real, p95: real, p99: real)

  /** The `total_*` fields. */
  datatype TotalStats = TotalStats(min: real, max: real, avg: real, p50: real, p90: real, p95: real, p99: real)

  /** `RunSummary`: the aggregate of one (mode, N, wait, repetition) run. */
  datatype RunSummary = RunSummary(
    mode: string,
    url: string,
    numRequests: int,
    batchSize: int,
    waitSeconds: real,
    repetition: int,
    timestamp: string,
    hardware: string,
    successful: nat,
    failed: nat,
    errorRate: real,
    totalWallTime: real,
    connect: PhaseStats,
    reset: PhaseStats,
    step: PhaseStats,
    total: TotalStats,
    requestsPerSecond: real,
    effectiveConcurrency: real,
    uniquePids: nat,
    uniqueSessions: nat,
    uniqueHosts: nat)

  const NoPhase := PhaseStats(0.0, 0.0, 0.0)
  const NoTotal := TotalStats(0.0, 0.0, 0.0, 0.0, 0.0, 0.0, 0.0)

  /** `[r for r in results if r.success]`. */
  function Successful(rs: seq<SessionResult>): (r: seq<SessionResult>)
    ensures |r| <= |rs|
    ensures forall x :: x in r <==> x in rs && x.success
  {
    if rs == [] then []
    else
      var init := Successful(rs[..|rs| - 1]);
      assert rs == rs[..|rs| - 1] + [rs[|rs| - 1]];
      if rs[|rs| - 1].success then init + [rs[|rs| - 1]] else init
  }

  /** `[r for r in results if not r.success]`. */
  function Failed(rs: seq<SessionResult>): (r: seq<SessionResult>)
    ensures |r| <= |rs|
    ensures forall x :: x in r <==> x in rs && !x.success
  {
    if rs == [] then []
    else
      var init := Failed(rs[..|rs| - 1]);
      assert rs == rs[..|rs| - 1] + [rs[|rs| - 1]];
      if !rs[|rs| - 1].success then init + [rs[|rs| - 1]] else init
  }

  /** Every record is either successful or failed. */
  lemma {:induction false} PartitionCount(rs: seq<SessionResult>)
    ensures |Successful(rs)| + |Failed(rs)| == |rs|
  {
    if rs != [] {
      PartitionCount(rs[..|rs| - 1]);
    }
  }

  /**
   * The filters keep order and multiplicity: each distributes over concatenation and
   * keeps a single record exactly when it passes, which fixes the result of every input.
   */
  lemma {:induction false} SuccessfulConcat(a: seq<SessionResult>, b: seq<SessionResult>)
    ensures Successful(a + b) == Successful(a) + Successful(b)
    ensures |b| == 1 ==> Successful(b) == if b[0].success then b else []
    decreases |b|
  {
    if b == [] {
      assert a + b == a;
    } else {
      var init := b[..|b| - 1];
      assert (a + b)[..|a + b| - 1] == a + init;
      SuccessfulConcat(a, init);
      if |b| == 1 {
        assert init == [];
      }
    }
  }

  lemma {:induction false} FailedConcat(a: seq<SessionResult>, b: seq<SessionResult>)
    ensures Failed(a + b) == Failed(a) + Failed(b)
    ensures |b| == 1 ==> Failed(b) == if b[0].success then [] else b
    decreases |b|
  {
    if b == [] {
      assert a + b == a;
    } else {
      var init := b[..|b| - 1];
      assert (a + b)[..|a + b| - 1] == a + init;
      FailedConcat(a, init);
      if |b| == 1 {
        assert init == [];
      }
    }
  }

  /** Each successful record occurs as often as in the batch, each failed one not at all. */
  lemma {:induction false} SuccessfulCounts(rs: seq<SessionResult>)
    ensures forall x :: multiset(Successful(rs))[x] == if x.success then multiset(rs)[x] else 0
    ensures forall x :: multiset(Failed(rs))[x] == if x.success then 0 else multiset(rs)[x]
  {
    if rs != [] {
      var init, last := rs[..|rs| - 1], rs[|rs| - 1];
      SuccessfulCounts(init);
      assert rs == init + [last];
      assert multiset(rs) == multiset(init) + multiset{last};
    }
  }

  datatype Phase = Connect | Reset | Step

  function Latency(r: SessionResult, phase: Phase): real {
    match phase
    case Connect => r.connectLatency
    case Reset => r.resetLatency
    case Step => r.stepLatency
  }

  /** `[r.<phase>_latency for r in rs if r.<phase>_latency > 0]`, in order. */
  function PositiveLatencies(rs: seq<SessionResult>, phase: Phase): (ts: seq<real>)
    ensures |ts| <= |rs|
    ensures forall k :: 0 <= k < |ts| ==> ts[k] > 0.0
    ensures forall x :: x in ts <==> exists r :: r in rs && Latency(r, phase) == x && x > 0.0
  {
    if rs == [] then []
    else
      var last := rs[|rs| - 1];
      var init := PositiveLatencies(rs[..|rs| - 1], phase);
      assert rs == rs[..|rs| - 1] + [last];
      if Latency(last, phase) > 0.0 then init + [Latency(last, phase)] else init
  }

  /**
   * The samples keep order and multiplicity: they distribute over concatenation, and a
   * single record contributes its latency exactly when it is positive.
   */
  lemma {:induction false} PositiveLatenciesConcat(a: seq<SessionResult>, b: seq<SessionResult>, phase: Phase)
    ensures PositiveLatencies(a + b, phase) == PositiveLatencies(a, phase) + PositiveLatencies(b, phase)
    ensures |b| == 1 ==> PositiveLatencies(b, phase) == if Latency(b[0], phase) > 0.0 then [Latency(b[0], phase)] else []
    decreases |b|
  {
    if b == [] {
      assert a + b == a;
    } else {
      var init := b[..|b| - 1];
      assert (a + b)[..|a + b| - 1] == a + init;
      PositiveLatenciesConcat(a, init, phase);
      if |b| == 1 {
        assert init == [];
      }
    }
  }

  /** A phase without a positive latency has no samples. */
  lemma {:induction false} NoPositiveLatency(rs: seq<SessionResult>, phase: Phase)
    requires forall k :: 0 <= k < |rs| ==> Latency(rs[k], phase) <= 0.0
    ensures PositiveLatencies(rs, phase) == []
  {
    if rs != [] {
      NoPositiveLatency(rs[..|rs| - 1], phase);
    }
  }

  /** `[r.total_latency for r in rs]`. */
  function TotalLatencies(rs: seq<SessionResult>): (ts: seq<real>)
    ensures |ts| == |rs|
    ensures forall k :: 0 <= k < |rs| ==> ts[k] == rs[k].totalLatency
  {
    if rs == [] then [] else TotalLatencies(rs[..|rs| - 1]) + [rs[|rs| - 1].totalLatency]
  }

  /**
   * `set(v for v in vals if v)`: the distinct values other than the falsy one (0 for a
   * pid, the empty string for a session hash or host).
   */
  function Distinct<T(==,!new)>(vals: seq<T>, falsy: T): (r: set<T>)
    ensures forall x :: x in r <==> x in vals && x != falsy
    ensures |r| <= |vals|
  {
    if vals == [] then {}
    else
      var init := Distinct(vals[..|vals| - 1], falsy);
      var last := vals[|vals| - 1];
      assert vals == vals[..|vals| - 1] + [last];
      if last != falsy then init + {last} else init
  }

  function Pids(rs: seq<SessionResult>): (r: seq<int>)
    ensures |r| == |rs| && forall k :: 0 <= k < |rs| ==> r[k] == rs[k].pid
  {
    if rs == [] then [] else Pids(rs[..|rs| - 1]) + [rs[|rs| - 1].pid]
  }

  function Hashes(rs: seq<SessionResult>): (r: seq<string>)
    ensures |r| == |rs| && forall k :: 0 <= k < |rs| ==> r[k] == rs[k].sessionHash
  {
    if rs == [] then [] else Hashes(rs[..|rs| - 1]) + [rs[|rs| - 1].sessionHash]
  }

  function Hosts(rs: seq<SessionResult>): (r: seq<string>)
    ensures |r| == |rs| && forall k :: 0 <= k < |rs| ==> r[k] == rs[k].hostUrl
  {
    if rs == [] then [] else Hosts(rs[..|rs| - 1]) + [rs[|rs| - 1].hostUrl]
  }

  /** The three percentiles of one phase, or the zero defaults when it has no samples. */
  function PhaseOf(ts: seq<real>): PhaseStats {
    if ts == [] then NoPhase else PhaseStats(Percentile(ts, 50.0), Percentile(ts, 95.0), Percentile(ts, 99.0))
  }

  function TotalOf(ts: seq<real>): TotalStats {
    if ts == [] then NoTotal
    else TotalStats(SeqMin(ts), SeqMax(ts), Mean(ts),
                    Percentile(ts, 50.0), Percentile(ts, 90.0), Percentile(ts, 95.0), Percentile(ts, 99.0))
  }

  /**
   * What `compute_summary` returns, field by field. `stamp` is the `now_iso()` value the
   * summary is created with.
   */
  function Summarize(results: seq<SessionResult>, mode: string, url: string, numRequests: int,
                     waitSeconds: real, repetition: int, totalWallTime: real, hardware: string,
                     stamp: string): RunSummary
  {
    var ok := Successful(results);
    var bad := Failed(results);
    var some := ok != [];
    RunSummary(
      mode, url, numRequests, numRequests, waitSeconds, repetition, stamp, hardware,
      |ok|, |bad|,
      if results != [] then |bad| as real / |results| as real else 0.0,
      totalWallTime,
      if some then PhaseOf(PositiveLatencies(ok, Connect)) else NoPhase,
      if some then PhaseOf(PositiveLatencies(ok, Reset)) else NoPhase,
      if some then PhaseOf(PositiveLatencies(ok, Step)) else NoPhase,
      if some then TotalOf(TotalLatencies(ok)) else NoTotal,
      if some && totalWallTime > 0.0 then |ok| as real / totalWallTime else 0.0,
      if some && totalWallTime > 0.0 then (numRequests as real * waitSeconds) / totalWallTime else 0.0,
      if some then |Distinct(Pids(ok), 0)| else 0,
      if some then |Distinct(Hashes(ok), "")| else 0,
      if some then |Distinct(Hosts(ok), "")| else 0)
  }

  /**
   * `compute_summary`: build the summary with its counts, return it early when nothing
   * succeeded, and otherwise fill in each group of statistics that has samples.
   */
  method ComputeSummary(results: seq<SessionResult>, mode: string, url: string, numRequests: int,
                        waitSeconds: real, repetition: int, totalWallTime: real, hardware: string,
                        stamp: string) returns (summary: RunSummary)
    ensures summary == Summarize(results, mode, url, numRequests, waitSeconds, repetition,
                                 totalWallTime, hardware, stamp)
  {
    var successful := Successful(results);
    var failed := Failed(results);
    var errorRate := if results != [] then |failed| as real / |results| as real else 0.0;
    summary := RunSummary(mode, url, numRequests, numRequests, waitSeconds, repetition, stamp, hardware,
                          |successful|, |failed|, errorRate, totalWallTime,
                          NoPhase, NoPhase, NoPhase, NoTotal, 0.0, 0.0, 0, 0, 0);
    if successful == [] {
      return;
    }
    var connectTimes := PositiveLatencies(successful, Connect);
    var resetTimes := PositiveLatencies(successful, Reset);
    var stepTimes := PositiveLatencies(successful, Step);
    var totalTimes := TotalLatencies(successful);
    if connectTimes != [] {
      summary := summary.(connect := PhaseStats(Percentile(connectTimes, 50.0), Percentile(connectTimes, 95.0),
                                                Percentile(connectTimes, 99.0)));
    }
    if resetTimes != [] {
      summary := summary.(reset := PhaseStats(Percentile(resetTimes, 50.0), Percentile(resetTimes, 95.0),
                                              Percentile(resetTimes, 99.0)));
    }
    if stepTimes != [] {
      summary := summary.(step := PhaseStats(Percentile(stepTimes, 50.0), Percentile(stepTimes, 95.0),
                                             Percentile(stepTimes, 99.0)));
    }
    if totalTimes != [] {
      summary := summary.(total := TotalStats(SeqMin(totalTimes), SeqMax(totalTimes), Mean(totalTimes),
                                              Percentile(totalTimes, 50.0), Percentile(totalTimes, 90.0),
                                              Percentile(totalTimes, 95.0), Percentile(totalTimes, 99.0)));
    }
    if totalWallTime > 0.0 {
      summary := summary.(requestsPerSecond := |successful| as real / totalWallTime,
                          effectiveConcurrency := (numRequests as real * waitSeconds) / totalWallTime);
    }
    summary := summary.(uniquePids := |Distinct(Pids(successful), 0)|,
                        uniqueSessions := |Distinct(Hashes(successful), "")|,
                        uniqueHosts := |Distinct(Hosts(successful), "")|);
  }

  // ---------------------------------------------------------------------------
  // What the summary promises
  // ---------------------------------------------------------------------------

  /** Every session is counted once, and the error rate is the failed share (0 for no sessions). */
  lemma SummaryCounts(results: seq<SessionResult>, mode: string, url: string, n: int, w: real, rep: int,
                      wall: real, hw: string, stamp: string)
    ensures var s := Summarize(results, mode, url, n, w, rep, wall, hw, stamp);
      s.successful + s.failed == |results| &&
      (results == [] ==> s.errorRate == 0.0) &&
      (results != [] ==> s.errorRate == s.failed as real / |results| as real) &&
      0.0 <= s.errorRate <= 1.0
  {
    PartitionCount(results);
    if results != [] {
      Share(|Failed(results)|, |results|);
    }
  }

  /** Without a successful session every statistic keeps its zero default. */
  lemma SummaryNoSuccess(results: seq<SessionResult>, mode: string, url: string, n: int, w: real, rep: int,
                         wall: real, hw: string, stamp: string)
    requires forall k :: 0 <= k < |results| ==> !results[k].success
    ensures var s := Summarize(results, mode, url, n, w, rep, wall, hw, stamp);
      s.successful == 0 && s.failed == |results| &&
      s.connect == NoPhase && s.reset == NoPhase && s.step == NoPhase && s.total == NoTotal &&
      s.requestsPerSecond == 0.0 && s.effectiveConcurrency == 0.0 &&
      s.uniquePids == 0 && s.uniqueSessions == 0 && s.uniqueHosts == 0
  {
    PartitionCount(results);
  }

  /** The total-latency statistics are ordered: min <= p50 <= p90 <= p95 <= p99 <= max, and min <= avg <= max. */
  lemma SummaryTotalOrdered(results: seq<SessionResult>, mode: string, url: string, n: int, w: real, rep: int,
                            wall: real, hw: string, stamp: string)
    ensures var t := Summarize(results, mode, url, n, w, rep, wall, hw, stamp).total;
      t.min <= t.p50 <= t.p90 <= t.p95 <= t.p99 <= t.max && t.min <= t.avg <= t.max
  {
    var ok := Successful(results);
    var ts := TotalLatencies(ok);
    assert Summarize(results, mode, url, n, w, rep, wall, hw, stamp).total == if ok != [] then TotalOf(ts) else NoTotal;
    TotalOfOrdered(ts);
  }

  lemma TotalOfOrdered(ts: seq<real>)
    ensures var t := TotalOf(ts);
      t.min <= t.p50 <= t.p90 <= t.p95 <= t.p99 <= t.max && t.min <= t.avg <= t.max
  {
    if ts != [] {
      PercentileBounds(ts, 50.0);
      PercentileMonotone(ts, 50.0, 90.0);
      PercentileMonotone(ts, 90.0, 95.0);
      PercentileMonotone(ts, 95.0, 99.0);
      PercentileBounds(ts, 99.0);
      MeanBounds(ts, SeqMin(ts), SeqMax(ts));
    }
  }

  function PhaseStatsOf(s: RunSummary, phase: Phase): PhaseStats {
    match phase
    case Connect => s.connect
    case Reset => s.reset
    case Step => s.step
  }

  /**
   * A phase's percentiles are taken over the positive latencies of the successful sessions
   * only: they are ordered, and p50 is positive exactly when such a latency exists
   * (otherwise all three stay 0).
   */
  lemma SummaryPhase(results: seq<SessionResult>, mode: string, url: string, n: int, w: real, rep: int,
                     wall: real, hw: string, stamp: string, phase: Phase)
    ensures var ps := PhaseStatsOf(Summarize(results, mode, url, n, w, rep, wall, hw, stamp), phase);
      ps == PhaseOf(PositiveLatencies(Successful(results), phase)) &&
      ps.p50 <= ps.p95 <= ps.p99 &&
      (ps.p50 > 0.0 <==> exists r :: r in results && r.success && Latency(r, phase) > 0.0)
  {
    var ok := Successful(results);
    var ts := PositiveLatencies(ok, phase);
    if ok == [] {
      assert ts == [];
    }
    if ts != [] {
      PercentileBounds(ts, 50.0);
      PercentileMonotone(ts, 50.0, 95.0);
      PercentileMonotone(ts, 95.0, 99.0);
      assert ts[0] in ts;
      var r :| r in ok && Latency(r, phase) == ts[0] && ts[0] > 0.0;
    } else {
      forall r | r in results && r.success ensures Latency(r, phase) <= 0.0 {
        assert r in ok;
        assert Latency(r, phase) !in ts;
      }
    }
  }

  /** Throughput is recorded only for a positive wall time, and then it is successes per second. */
  lemma SummaryThroughput(results: seq<SessionResult>, mode: string, url: string, n: int, w: real, rep: int,
                          wall: real, hw: string, stamp: string)
    ensures var s := Summarize(results, mode, url, n, w, rep, wall, hw, stamp);
      (wall <= 0.0 ==> s.requestsPerSecond == 0.0 && s.effectiveConcurrency == 0.0) &&
      (wall > 0.0 && s.successful > 0 ==>
        s.requestsPerSecond == s.successful as real / wall &&
        s.effectiveConcurrency == n as real * w / wall)
  {
  }

  lemma Share(part: nat, whole: nat)
    requires part <= whole && whole > 0
    ensures 0.0 <= part as real / whole as real <= 1.0
  {
    DivideBounds(part as real, whole as real, 0.0, 1.0);
  }

  /** Each distinct-value count is at most the number of successful sessions. */
  lemma SummaryDistinctBounded(results: seq<SessionResult>, mode: string, url: string, n: int, w: real, rep: int,
                               wall: real, hw: string, stamp: string)
    ensures var s := Summarize(results, mode, url, n, w, rep, wall, hw, stamp);
      s.uniquePids <= s.successful && s.uniqueSessions <= s.successful && s.uniqueHosts <= s.successful
  {
  }

  /** The pid count is the number of distinct non-zero pids among the successful sessions. */
  lemma SummaryDistinctPids(results: seq<SessionResult>, mode: string, url: string, n: int, w: real, rep: int,
                            wall: real, hw: string, stamp: string)
    ensures var s := Summarize(results, mode, url, n, w, rep, wall, hw, stamp);
      s.uniquePids == |set r | r in results && r.success && r.pid != 0 :: r.pid|
  {
    var ok := Successful(results);
    var d := Distinct(Pids(ok), 0);
    var want := set r | r in results && r.success && r.pid != 0 :: r.pid;
    forall x ensures x in d <==> x in want {
      if x in d {
        var k :| 0 <= k < |ok| && Pids(ok)[k] == x;
        assert ok[k] in ok;
      }
      if x in want {
        var r :| r in results && r.success && r.pid != 0 && r.pid == x;
        assert r in ok;
        var k :| 0 <= k < |ok| && ok[k] == r;
        assert Pids(ok)[k] == x;
      }
    }
    assert d == want;
  }
}
