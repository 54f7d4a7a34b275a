/**
 * The experiment runner's string and list logic: the infrastructure lookup, the
 * argument vector handed to the load tester, the batch-size cap and mode selection of
 * `main`, the run entry of the experiment log and its insertion after the log's marker.
 */
module RunExperiment {
  import opened Wrappers
  import opened Text
  import opened Numeric

  // ---------------------------------------------------------------------------
  // Infrastructure lookup
  // ---------------------------------------------------------------------------

  /** One entry of `config["variables"]["infrastructures"]`; an absent key is `None`. */
  datatype Infra = Infra(id: string, name: Option<string>, maxExpectedBatch: Option<int>)

  /**
   * `get_infrastructure_config`: the first entry with the id, or the `ValueError`
   * message when no entry has it.
   */
  method GetInfrastructureConfig(infras: seq<Infra>, infraId: string) returns (r: Result<Infra, string>)
    ensures r.Ok? <==> exists k :: 0 <= k < |infras| && infras[k].id == infraId
    ensures r.Ok? ==> exists k :: 0 <= k < |infras| && infras[k] == r.value && infras[k].id == infraId &&
                        forall j :: 0 <= j < k ==> infras[j].id != infraId
    ensures r.Err? ==> r.error == "Unknown infrastructure: " + infraId
  {
    for k := 0 to |infras|
      invariant forall j :: 0 <= j < k ==> infras[j].id != infraId
    {
      if infras[k].id == infraId {
        return Ok(infras[k]);
      }
    }
    return Err("Unknown infrastructure: " + infraId);
  }

  // ---------------------------------------------------------------------------
  // The command line
  // ---------------------------------------------------------------------------

  /** `[str(b) for b in batch_sizes]`. */
  function DecimalStrings(xs: seq<int>): (r: seq<string>)
    ensures |r| == |xs|
    ensures forall k :: 0 <= k < |xs| ==> r[k] == DecimalString(xs[k])
  {
    if xs == [] then [] else [DecimalString(xs[0])] + DecimalStrings(xs[1..])
  }

  /** `[int(x) for x in parts]`, or None where an `int()` raises `ValueError`. */
  function ParseInts(parts: seq<string>): Option<seq<int>> {
    if parts == [] then Some([])
    else
      match (ParseInt(parts[0]), ParseInts(parts[1..]))
      case (Some(x), Some(rest)) => Some([x] + rest)
      case _ => None
  }

  /** `",".join(str(b) for b in batch_sizes)`. */
  function IntGrid(xs: seq<int>): string {
    Join(DecimalStrings(xs), ",")
  }

  /**
   * The load tester reads back what the runner wrote: `[int(x) for x in grid.split(",")]`
   * of a non-empty batch-size grid gives the batch sizes, in order.
   */
  lemma IntGridRoundTrip(xs: seq<int>)
    requires |xs| > 0
    ensures ParseInts(Split(IntGrid(xs), ",")) == Some(xs)
  {
    var parts := DecimalStrings(xs);
    SplitJoin(parts, ',');
    ParseAll(xs);
  }

  lemma {:induction false} ParseAll(xs: seq<int>)
    ensures ParseInts(DecimalStrings(xs)) == Some(xs)
  {
    if xs != [] {
      ParseDecimalString(xs[0]);
      ParseAll(xs[1..]);
      assert DecimalStrings(xs)[1..] == DecimalStrings(xs[1..]);
      assert [xs[0]] + xs[1..] == xs;
    }
  }

  /**
   * The argument vector of `build_command`; the interpreter path, the wait times (as
   * their `str` texts) and the output directory (as its text) are given.
   */
  function CommandLine(executable: string, url: string, batchSizes: seq<int>, waitTexts: seq<string>,
                       reps: int, mode: string, compare: bool, outputDir: string, timeout: int): seq<string> {
    [executable, "tests/test_scaling.py",
     "--url", url,
     "--requests-grid", IntGrid(batchSizes),
     "--wait-grid", Join(waitTexts, ","),
     "--reps", DecimalString(reps),
     "--timeout", DecimalString(timeout),
     "--output-dir", outputDir]
    + (if compare then ["--compare"] else ["--mode", mode])
  }

  /** `build_command`: the fixed tokens, then `--compare` or `--mode <mode>` appended. */
  method BuildCommand(executable: string, url: string, batchSizes: seq<int>, waitTexts: seq<string>,
                      reps: int, mode: string, compare: bool, outputDir: string, timeout: int)
    returns (cmd: seq<string>)
    ensures cmd == CommandLine(executable, url, batchSizes, waitTexts, reps, mode, compare, outputDir, timeout)
  {
    cmd := [executable, "tests/test_scaling.py",
            "--url", url,
            "--requests-grid", Join(DecimalStrings(batchSizes), ","),
            "--wait-grid", Join(waitTexts, ","),
            "--reps", DecimalString(reps),
            "--timeout", DecimalString(timeout),
            "--output-dir", outputDir];
    if compare {
      cmd := cmd + ["--compare"];
    } else {
      cmd := cmd + ["--mode", mode];
    }
  }

  /**
   * The command has 14 fixed-position tokens (each option followed by its value) and then
   * either `--compare` alone or `--mode` and the mode, so 15 or 16 tokens.
   */
  lemma CommandShape(executable: string, url: string, batchSizes: seq<int>, waitTexts: seq<string>,
                     reps: int, mode: string, compare: bool, outputDir: string, timeout: int)
    ensures var cmd := CommandLine(executable, url, batchSizes, waitTexts, reps, mode, compare, outputDir, timeout);
      |cmd| == (if compare then 15 else 16) &&
      cmd[2] == "--url" && cmd[3] == url &&
      cmd[4] == "--requests-grid" && cmd[5] == IntGrid(batchSizes) &&
      cmd[6] == "--wait-grid" && cmd[7] == Join(waitTexts, ",") &&
      cmd[8] == "--reps" && cmd[9] == DecimalString(reps) &&
      cmd[10] == "--timeout" && cmd[11] == DecimalString(timeout) &&
      cmd[12] == "--output-dir" && cmd[13] == outputDir &&
      cmd[14..] == (if compare then ["--compare"] else ["--mode", mode])
  {
  }

  /**
   * The values the load tester reads back are those the runner was given: the batch-size
   * grid (when non-empty), the wait texts (when none holds a comma), the repetition count
   * and the timeout.
   */
  lemma CommandValues(executable: string, url: string, batchSizes: seq<int>, waitTexts: seq<string>,
                      reps: int, mode: string, compare: bool, outputDir: string, timeout: int)
    ensures var cmd := CommandLine(executable, url, batchSizes, waitTexts, reps, mode, compare, outputDir, timeout);
      (|batchSizes| > 0 ==> ParseInts(Split(cmd[5], ",")) == Some(batchSizes)) &&
      (|waitTexts| > 0 && (forall k :: 0 <= k < |waitTexts| ==> ',' !in waitTexts[k]) ==>
         Split(cmd[7], ",") == waitTexts) &&
      ParseInt(cmd[9]) == Some(reps) && ParseInt(cmd[11]) == Some(timeout)
  {
    CommandShape(executable, url, batchSizes, waitTexts, reps, mode, compare, outputDir, timeout);
    if |batchSizes| > 0 {
      IntGridRoundTrip(batchSizes);
    }
    if |waitTexts| > 0 && forall k :: 0 <= k < |waitTexts| ==> ',' !in waitTexts[k] {
      SplitJoin(waitTexts, ',');
    }
    ParseDecimalString(reps);
    ParseDecimalString(timeout);
  }

  // ---------------------------------------------------------------------------
  // Parameters chosen in `main`
  // ---------------------------------------------------------------------------

  /** The cap: twice the infrastructure's `max_expected_batch`, 512 when absent. */
  function Cap(maxExpectedBatch: Option<int>): int {
    maxExpectedBatch.GetOr(512) * 2
  }

  /** `[b for b in batch_sizes if b <= max_expected * 2]`. */
  function CapBatchSizes(sizes: seq<int>, maxExpectedBatch: Option<int>): (r: seq<int>)
    ensures |r| <= |sizes|
  {
    if sizes == [] then []
    else
      var rest := CapBatchSizes(sizes[1..], maxExpectedBatch);
      if sizes[0] <= Cap(maxExpectedBatch) then [sizes[0]] + rest else rest
  }

  /** The capped list keeps exactly the sizes within the cap. */
  lemma {:induction false} CapMembers(sizes: seq<int>, maxExpectedBatch: Option<int>)
    ensures forall b :: b in CapBatchSizes(sizes, maxExpectedBatch) <==> b in sizes && b <= Cap(maxExpectedBatch)
  {
    if sizes != [] {
      CapMembers(sizes[1..], maxExpectedBatch);
      assert sizes == [sizes[0]] + sizes[1..];
    }
  }

  /** The cap keeps order: capping a concatenation concatenates the capped parts. */
  lemma {:induction false} CapConcat(a: seq<int>, b: seq<int>, maxExpectedBatch: Option<int>)
    ensures CapBatchSizes(a + b, maxExpectedBatch) == CapBatchSizes(a, maxExpectedBatch) + CapBatchSizes(b, maxExpectedBatch)
  {
    if a != [] {
      CapConcat(a[1..], b, maxExpectedBatch);
      assert (a + b)[1..] == a[1..] + b;
    } else {
      assert a + b == b;
    }
  }

  /** Capping twice is capping once, and a list already within the cap is left as it is. */
  lemma {:induction false} CapIdentity(sizes: seq<int>, maxExpectedBatch: Option<int>)
    requires forall k :: 0 <= k < |sizes| ==> sizes[k] <= Cap(maxExpectedBatch)
    ensures CapBatchSizes(sizes, maxExpectedBatch) == sizes
  {
    if sizes != [] {
      CapIdentity(sizes[1..], maxExpectedBatch);
      assert [sizes[0]] + sizes[1..] == sizes;
    }
  }

  lemma CapIdempotent(sizes: seq<int>, maxExpectedBatch: Option<int>)
    ensures CapBatchSizes(CapBatchSizes(sizes, maxExpectedBatch), maxExpectedBatch) == CapBatchSizes(sizes, maxExpectedBatch)
  {
    var r := CapBatchSizes(sizes, maxExpectedBatch);
    CapMembers(sizes, maxExpectedBatch);
    forall k | 0 <= k < |r| ensures r[k] <= Cap(maxExpectedBatch) {
      assert r[k] in r;
    }
    CapIdentity(r, maxExpectedBatch);
  }

  /** `compare = args.mode is None` and `mode = args.mode or "ws"`. */
  function SelectMode(argMode: Option<string>): (r: (bool, string))
    ensures r.0 <==> argMode.None?
    ensures argMode.None? || argMode.value == "" ==> r.1 == "ws"
    ensures argMode.Some? && argMode.value != "" ==> r.1 == argMode.value
  {
    (argMode.None?, if argMode.Some? && argMode.value != "" then argMode.value else "ws")
  }

  /**
   * Without `--mode` the command asks for the comparison and carries no mode token; with
   * one it ends with that mode.
   */
  lemma SelectedCommandTail(executable: string, url: string, batchSizes: seq<int>, waitTexts: seq<string>,
                            reps: int, argMode: Option<string>, outputDir: string, timeout: int)
    ensures var (compare, mode) := SelectMode(argMode);
      var cmd := CommandLine(executable, url, batchSizes, waitTexts, reps, mode, compare, outputDir, timeout);
      (argMode.None? ==> cmd[|cmd| - 1] == "--compare" && |cmd| == 15) &&
      (argMode.Some? && argMode.value != "" ==> cmd[|cmd| - 2..] == ["--mode", argMode.value])
  {
  }

  // ---------------------------------------------------------------------------
  // The log entry
  // ---------------------------------------------------------------------------

  /** `end_iso`: the formatted end time, or `[in progress]` while the run has none. */
  function EndText(endIso: Option<string>): string {
    endIso.GetOr("[in progress]")
  }

  /** `infra_config.get('max_expected_batch', 'N/A')` as the f-string writes it. */
  function MaxExpectedText(maxExpectedBatch: Option<int>): string {
    if maxExpectedBatch.Some? then DecimalString(maxExpectedBatch.value) else "N/A"
  }

  /** The heading of an entry. */
  function EntryHeading(infraId: string, dateStr: string): string {
    "\n## Run: " + dateStr + "-" + infraId + "\n"
  }

  /** The lines between the heading and the End line. */
  function HeadLines(infraId: string, startIso: string): string {
    "\n" +
    "**Infrastructure:** " + infraId + "  \n" +
    "**Start:** " + startIso + "  \n"
  }

  /** The `**End:**` line of an entry: the end time, or `[in progress]` while there is none. */
  function EndLine(endIso: Option<string>): (l: string)
    ensures endIso.None? ==> l == "**End:** [in progress]  \n"
    ensures endIso.Some? ==> l == "**End:** " + endIso.value + "  \n"
  {
    "**End:** " + EndText(endIso) + "  \n"
  }

  /** Everything after the End line, up to the closing rule. */
  function EntryBody(infraId: string, infra: Infra, url: string, command: string,
                     dateStr: string, status: string): string {
    "**Status:** " + status + "  \n\n" +
    "### Configuration\n" +
    "- Name: " + infra.name.GetOr(infraId) + "\n" +
    "- URL: " + url + "\n" +
    "- Max Expected Batch: " + MaxExpectedText(infra.maxExpectedBatch) + "\n\n" +
    "### Command\n```bash\n" + command + "\n```\n\n" +
    "### Results Summary\n" +
    "| Mode | wait_s | Max Batch | p99 Latency | Success % | RPS |\n" +
    "|------|--------|-----------|-------------|-----------|-----|\n" +
    "| -    | -      | -         | -           | -         | -   |\n\n" +
    "*Update this table after analyzing results with `analyze_results.py`*\n\n" +
    "### Links\n" +
    "- Raw data: [raw.jsonl](../results/" + infraId + "/" + dateStr + "/raw.jsonl)\n" +
    "- Summary CSV: [summary.csv](../results/" + infraId + "/" + dateStr + "/summary.csv)\n\n" +
    "### Observations\n" +
    "[Add observations after reviewing results]\n"
  }

  /** The rule that closes every entry. */
  const ClosingRule := "\n---\n"

  /**
   * `generate_log_entry`: the Markdown run entry. Dates and times are given already
   * formatted (`date_str`, `start_iso`, `end_iso`).
   */
  function LogEntry(infraId: string, infra: Infra, url: string, command: string,
                    dateStr: string, startIso: string, endIso: Option<string>, status: string): string {
    EntryHeading(infraId, dateStr) + HeadLines(infraId, startIso) + EndLine(endIso) +
    EntryBody(infraId, infra, url, command, dateStr, status) + ClosingRule
  }

  /**
   * A text made of five pieces starts with the first, contains the third and ends with
   * the last.
   */
  lemma FivePieces(a: string, b: string, c: string, d: string, e: string)
    ensures StartsWith(a + b + c + d + e, a)
    ensures Contains(a + b + c + d + e, c)
    ensures EndsWith(a + b + c + d + e, e)
  {
    var s := a + b + c + d + e;
    assert s[..|a|] == a;
    assert s[|a + b|..|a + b| + |c|] == c;
    assert OccursAt(s, c, |a + b|);
    assert s[|s| - |e|..] == e;
  }

  /**
   * The entry starts with its `## Run:` heading, carries the End line and ends with the `---` rule that separates it
   * from the next one.
   */
  lemma LogEntryShape(infraId: string, infra: Infra, url: string, command: string,
                      dateStr: string, startIso: string, endIso: Option<string>, status: string)
    ensures var e := LogEntry(infraId, infra, url, command, dateStr, startIso, endIso, status);
      StartsWith(e, "\n## Run: " + dateStr + "-" + infraId + "\n") &&
      Contains(e, EndLine(endIso)) &&
      EndsWith(e, "\n---\n")
  {
    FivePieces(EntryHeading(infraId, dateStr), HeadLines(infraId, startIso), EndLine(endIso),
               EntryBody(infraId, infra, url, command, dateStr, status), ClosingRule);
  }

  // ---------------------------------------------------------------------------
  // Inserting the entry into the log
  // ---------------------------------------------------------------------------

  /** The comment after which new runs are inserted. */
  const Marker := "<!-- EXPERIMENT RUNS START -->"

  /** A string that contains the marker splits into at least two parts. */
  lemma SplitAtMarker(content: string)
    requires Contains(content, Marker)
    ensures |Split(content, Marker)| >= 2
  {
    var i := Find(content, Marker).value;
    SplitAtFirst(content, Marker, i);
  }

  /**
   * The string part of `append_to_log` as written: with the marker, the text becomes
   * `parts[0] + marker + "\n" + entry + parts[1]` of `content.split(marker)`; without it,
   * the entry is appended after a newline.
   */
  function AppendToLog(content: string, entry: string): string {
    if Contains(content, Marker) then
      var parts := (SplitAtMarker(content); Split(content, Marker));
      parts[0] + Marker + "\n" + entry + parts[1]
    else content + "\n" + entry
  }

  /** Without a marker the entry goes at the end, after a newline. */
  lemma AppendWithoutMarker(content: string, entry: string)
    requires !Contains(content, Marker)
    ensures AppendToLog(content, entry) == content + "\n" + entry
  {
  }

  /** An occurrence in a suffix is an occurrence in the whole text, shifted. */
  lemma OccursInSuffix(content: string, off: nat, j: nat)
    requires off <= |content|
    ensures OccursAt(content[off..], Marker, j) <==> OccursAt(content, Marker, off + j)
  {
    if j + |Marker| <= |content[off..]| {
      assert content[off..][j..j + |Marker|] == content[off + j..off + j + |Marker|];
    }
  }

  /**
   * The first part of the text after the first marker runs up to the next marker, or to
   * the end when there is none.
   */
  lemma FirstPartAfter(content: string, p: nat, q: nat)
    requires p + |Marker| <= q <= |content|
    requires q < |content| ==> OccursAt(content, Marker, q)
    requires forall j :: p + |Marker| <= j < q ==> !OccursAt(content, Marker, j)
    ensures Split(content[p + |Marker|..], Marker)[0] == content[p + |Marker|..q]
  {
    var off := p + |Marker|;
    var rest := content[off..];
    var d := q - off;
    forall j | 0 <= j < d ensures !OccursAt(rest, Marker, j) {
      OccursInSuffix(content, off, j);
    }
    if q < |content| {
      OccursInSuffix(content, off, d);
      SplitAtFirst(rest, Marker, d);
    } else {
      assert !Contains(rest, Marker);
    }
  }

  /**
   * With the marker first at `p` and next at `q` (or nowhere after `p` when `q` is the
   * length of the text), the result is the text up to the first marker, the marker, the
   * entry, and the text up to `q`.
   */
  lemma AppendAtFirstMarker(content: string, entry: string, p: nat, q: nat)
    requires Find(content, Marker) == Some(p)
    requires p + |Marker| <= q <= |content|
    requires q < |content| ==> OccursAt(content, Marker, q)
    requires forall j :: p + |Marker| <= j < q ==> !OccursAt(content, Marker, j)
    ensures AppendToLog(content, entry) == content[..p] + Marker + "\n" + entry + content[p + |Marker|..q]
  {
    assert OccursAt(content, Marker, p);
    SplitAtFirst(content, Marker, p);
    FirstPartAfter(content, p, q);
  }

  /**
   * With exactly one marker, the entry is inserted right after it and every character of
   * the original text is kept, in order.
   */
  lemma AppendOneMarker(content: string, entry: string, p: nat)
    requires OccursAt(content, Marker, p)
    requires forall j :: j != p ==> !OccursAt(content, Marker, j)
    ensures AppendToLog(content, entry) ==
      content[..p + |Marker|] + "\n" + entry + content[p + |Marker|..]
  {
    FindOnly(content, p);
    AppendAtFirstMarker(content, entry, p, |content|);
    assert content[..p + |Marker|] == content[..p] + Marker;
  }

  /** A single occurrence is the one `Find` reports. */
  lemma FindOnly(content: string, p: nat)
    requires OccursAt(content, Marker, p)
    requires forall j :: j != p ==> !OccursAt(content, Marker, j)
    ensures Find(content, Marker) == Some(p)
  {
    assert Contains(content, Marker);
  }

  /**
   * A log that holds the marker twice loses everything from the second marker on:
   * `split` cuts the text into three parts and only the first two are written back.
   */
  lemma AppendDropsTail()
    ensures AppendToLog(Marker + Marker + "z", "e") == Marker + "\ne"
  {
    var content := Marker + Marker + "z";
    var m := |Marker|;
    assert content[..m] == Marker;
    assert OccursAt(content, Marker, 0);
    assert Find(content, Marker) == Some(0);
    assert content[m..m + m] == Marker;
    assert OccursAt(content, Marker, m);
    AppendAtFirstMarker(content, "e", 0, m);
    assert content[..0] == "" && content[m..m] == "";
  }

  /**
   * The insertion as evidently intended (`content.split(marker, 1)`): the text is cut at
   * the first marker only.
   */
  function AppendToLogFirst(content: string, entry: string): string {
    match Find(content, Marker)
    case Some(p) => content[..p] + Marker + "\n" + entry + content[p + |Marker|..]
    case None => content + "\n" + entry
  }

  /**
   * Whatever the log holds, the corrected insertion keeps all of it: removing the
   * inserted newline and entry gives the original text back.
   */
  lemma AppendFirstPreserves(content: string, entry: string)
    ensures var r := AppendToLogFirst(content, entry);
      exists k :: 0 <= k <= |content| && r == content[..k] + "\n" + entry + content[k..]
  {
    match Find(content, Marker)
    case Some(p) =>
      var k := p + |Marker|;
      assert content[..k] == content[..p] + Marker;
      assert AppendToLogFirst(content, entry) == content[..k] + "\n" + entry + content[k..];
    case None =>
      var k := |content|;
      assert content[..k] == content && content[k..] == "";
      assert AppendToLogFirst(content, entry) == content[..k] + "\n" + entry + content[k..];
  }

  /** With at most one marker the corrected insertion and the written one agree. */
  lemma AppendFirstAgrees(content: string, entry: string)
    requires forall i, j :: OccursAt(content, Marker, i) && OccursAt(content, Marker, j) ==> i == j
    ensures AppendToLogFirst(content, entry) == AppendToLog(content, entry)
  {
    match Find(content, Marker)
    case Some(p) =>
      AppendOneMarker(content, entry, p);
      assert content[..p + |Marker|] == content[..p] + Marker;
    case None =>
  }
}
