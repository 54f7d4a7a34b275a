/**
 * The file selection of `pull_from_hub`: which repository files are targets, which of
 * them are downloaded and which skipped, and the counters of the download loop. The
 * repository listing, the local file system and each download's success are given.
 */
module PullFromHub {
  import opened Wrappers
  import opened Text

  // ---------------------------------------------------------------------------
  // Targets
  // ---------------------------------------------------------------------------

  /** A repository file under `results/` or `reports/` that is not a directory entry. */
  predicate IsTarget(f: string) {
    (StartsWith(f, "results/") || StartsWith(f, "reports/")) && !EndsWith(f, "/")
  }

  /** The target list comprehension, in repository order. */
  function Targets(files: seq<string>): (r: seq<string>)
    ensures |r| <= |files|
  {
    if files == [] then []
    else (if IsTarget(files[0]) then [files[0]] else []) + Targets(files[1..])
  }

  /** The targets are exactly the files under `results/` or `reports/` that are not directories. */
  lemma {:induction false} TargetsMembers(files: seq<string>)
    ensures forall f :: f in Targets(files) <==> f in files && IsTarget(f)
  {
    if files != [] {
      TargetsMembers(files[1..]);
      assert files == [files[0]] + files[1..];
    }
  }

  lemma TargetsCons(x: string, rest: seq<string>)
    ensures Targets([x] + rest) == (if IsTarget(x) then [x] else []) + Targets(rest)
  {
    assert ([x] + rest)[1..] == rest;
  }

  /** The selection keeps the repository order: it distributes over concatenation. */
  lemma {:induction false} TargetsConcat(a: seq<string>, b: seq<string>)
    ensures Targets(a + b) == Targets(a) + Targets(b)
  {
    if a == [] {
      assert a + b == b;
    } else {
      var x, rest := a[0], a[1..];
      TargetsConcat(rest, b);
      assert a + b == [x] + (rest + b);
      assert a == [x] + rest;
      TargetsCons(x, rest + b);
      TargetsCons(x, rest);
      var h := if IsTarget(x) then [x] else [];
      assert h + (Targets(rest) + Targets(b)) == (h + Targets(rest)) + Targets(b);
    }
  }

  /** `[f for f in target_files if f.startswith(filter_prefix)]`. */
  function WithPrefix(targets: seq<string>, prefix: string): (r: seq<string>)
    ensures |r| <= |targets|
  {
    if targets == [] then []
    else (if StartsWith(targets[0], prefix) then [targets[0]] else []) + WithPrefix(targets[1..], prefix)
  }

  /** The filtered list holds exactly the targets that start with the prefix. */
  lemma {:induction false} WithPrefixMembers(targets: seq<string>, prefix: string)
    ensures forall f :: f in WithPrefix(targets, prefix) <==> f in targets && StartsWith(f, prefix)
  {
    if targets != [] {
      WithPrefixMembers(targets[1..], prefix);
      assert targets == [targets[0]] + targets[1..];
    }
  }

  /** The targets after the user's filter, which applies only when it is a non-empty text. */
  function Selected(files: seq<string>, filterPrefix: Option<string>): seq<string> {
    if filterPrefix.Some? && filterPrefix.value != "" then WithPrefix(Targets(files), filterPrefix.value)
    else Targets(files)
  }

  /**
   * A selected file is a target that starts with the filter when one is set; without a
   * filter (or with an empty one) every target is selected.
   */
  lemma SelectedMembers(files: seq<string>, filterPrefix: Option<string>)
    ensures forall f :: f in Selected(files, filterPrefix) <==>
      f in files && IsTarget(f) && (filterPrefix.Some? && filterPrefix.value != "" ==> StartsWith(f, filterPrefix.value))
  {
    TargetsMembers(files);
    if filterPrefix.Some? && filterPrefix.value != "" {
      WithPrefixMembers(Targets(files), filterPrefix.value);
    }
  }

  // ---------------------------------------------------------------------------
  // The download/skip partition
  // ---------------------------------------------------------------------------

  /** A target is skipped when its local copy exists and `force` is off. */
  predicate Skip(f: string, localExists: string -> bool, force: bool) {
    localExists(f) && !force
  }

  /** The targets that go to `files_to_download`, in order. */
  function ToDownload(targets: seq<string>, localExists: string -> bool, force: bool): (r: seq<string>)
    ensures |r| <= |targets|
  {
    if targets == [] then []
    else
      var init := ToDownload(targets[..|targets| - 1], localExists, force);
      if Skip(targets[|targets| - 1], localExists, force) then init else init + [targets[|targets| - 1]]
  }

  /** The targets that go to `files_skipped`, in order. */
  function Skipped(targets: seq<string>, localExists: string -> bool, force: bool): (r: seq<string>)
    ensures |r| <= |targets|
  {
    if targets == [] then []
    else
      var init := Skipped(targets[..|targets| - 1], localExists, force);
      if Skip(targets[|targets| - 1], localExists, force) then init + [targets[|targets| - 1]] else init
  }

  /** The partition loop: each target is appended to exactly one of the two lists. */
  method PartitionTargets(targets: seq<string>, localExists: string -> bool, force: bool)
    returns (toDownload: seq<string>, skipped: seq<string>)
    ensures toDownload == ToDownload(targets, localExists, force)
    ensures skipped == Skipped(targets, localExists, force)
  {
    toDownload, skipped := [], [];
    for k := 0 to |targets|
      invariant toDownload == ToDownload(targets[..k], localExists, force)
      invariant skipped == Skipped(targets[..k], localExists, force)
    {
      assert targets[..k + 1][..k] == targets[..k];
      if localExists(targets[k]) && !force {
        skipped := skipped + [targets[k]];
      } else {
        toDownload := toDownload + [targets[k]];
      }
    }
    assert targets[..|targets|] == targets;
  }

  /**
   * Every target lands in exactly one list: the two lists together hold each target as
   * often as the targets do, so the counts printed add up to the number of targets.
   */
  lemma {:induction false} PartitionExact(targets: seq<string>, localExists: string -> bool, force: bool)
    ensures multiset(ToDownload(targets, localExists, force)) + multiset(Skipped(targets, localExists, force)) == multiset(targets)
    ensures |ToDownload(targets, localExists, force)| + |Skipped(targets, localExists, force)| == |targets|
  {
    if targets != [] {
      var init := targets[..|targets| - 1];
      var f := targets[|targets| - 1];
      PartitionExact(init, localExists, force);
      assert targets == init + [f];
      assert multiset(targets) == multiset(init) + multiset{f};
    }
  }

  /** A target is skipped exactly when its local copy exists and `force` is off. */
  lemma {:induction false} SkippedMembers(targets: seq<string>, localExists: string -> bool, force: bool)
    ensures forall f :: f in Skipped(targets, localExists, force) <==> f in targets && localExists(f) && !force
    ensures forall f :: f in ToDownload(targets, localExists, force) <==> f in targets && !(localExists(f) && !force)
  {
    if targets != [] {
      var init := targets[..|targets| - 1];
      SkippedMembers(init, localExists, force);
      assert targets == init + [targets[|targets| - 1]];
    }
  }

  /** With `force` nothing is skipped and every target is downloaded, in order. */
  lemma {:induction false} ForceDownloadsAll(targets: seq<string>, localExists: string -> bool)
    ensures ToDownload(targets, localExists, true) == targets
    ensures Skipped(targets, localExists, true) == []
  {
    if targets != [] {
      var init := targets[..|targets| - 1];
      ForceDownloadsAll(init, localExists);
      assert targets == init + [targets[|targets| - 1]];
    }
  }

  // ---------------------------------------------------------------------------
  // Downloading
  // ---------------------------------------------------------------------------

  /** The files whose download succeeds, in order. */
  function Succeeded(files: seq<string>, succeeds: string -> bool): (r: seq<string>)
    ensures |r| <= |files|
  {
    if files == [] then []
    else
      var init := Succeeded(files[..|files| - 1], succeeds);
      if succeeds(files[|files| - 1]) then init + [files[|files| - 1]] else init
  }

  /** The files whose download raises, in order. */
  function Failed(files: seq<string>, succeeds: string -> bool): (r: seq<string>)
    ensures |r| <= |files|
  {
    if files == [] then []
    else
      var init := Failed(files[..|files| - 1], succeeds);
      if succeeds(files[|files| - 1]) then init else init + [files[|files| - 1]]
  }

  /** Each file either downloads or fails. */
  lemma {:induction false} OutcomesAddUp(files: seq<string>, succeeds: string -> bool)
    ensures |Succeeded(files, succeeds)| + |Failed(files, succeeds)| == |files|
  {
    if files != [] {
      OutcomesAddUp(files[..|files| - 1], succeeds);
    }
  }

  /**
   * The download loop: it tries every file once, in order, counting a success in
   * `downloaded` and an exception in `errors`.
   */
  method DownloadAll(toDownload: seq<string>, succeeds: string -> bool)
    returns (attempted: seq<string>, downloaded: nat, errors: nat)
    ensures attempted == toDownload
    ensures downloaded == |Succeeded(toDownload, succeeds)|
    ensures errors == |Failed(toDownload, succeeds)|
    ensures downloaded + errors == |toDownload|
  {
    attempted, downloaded, errors := [], 0, 0;
    for k := 0 to |toDownload|
      invariant attempted == toDownload[..k]
      invariant downloaded == |Succeeded(toDownload[..k], succeeds)|
      invariant errors == |Failed(toDownload[..k], succeeds)|
    {
      assert toDownload[..k + 1][..k] == toDownload[..k];
      attempted := attempted + [toDownload[k]];
      if succeeds(toDownload[k]) {
        downloaded := downloaded + 1;
      } else {
        errors := errors + 1;
      }
    }
    assert toDownload[..|toDownload|] == toDownload;
    OutcomesAddUp(toDownload, succeeds);
  }

  // ---------------------------------------------------------------------------
  // The whole pull
  // ---------------------------------------------------------------------------

  /** How a pull ends. */
  datatype Outcome =
    | ListFailed                                   // the listing raised: exit(1)
    | NoTargets                                    // "No files found to download!"
    | DryRun(toDownload: nat, skipped: nat)        // the plan is printed, nothing downloaded
    | NothingNew(skipped: nat)                     // every target exists locally
    | Done(downloaded: nat, errors: nat)

  /**
   * `pull_from_hub`: `listing` is the repository's file list, or None when listing it
   * failed. `attempted` is the files the download loop tried; no download is attempted
   * unless the pull ends in `Done`.
   */
  method Pull(listing: Option<seq<string>>, filterPrefix: Option<string>, dryRun: bool, force: bool,
              localExists: string -> bool, succeeds: string -> bool)
    returns (o: Outcome, attempted: seq<string>)
    ensures listing.None? <==> o.ListFailed?
    ensures listing.Some? ==> var selected := Selected(listing.value, filterPrefix);
      var plan := ToDownload(selected, localExists, force);
      (o.NoTargets? <==> selected == []) &&
      (o.DryRun? <==> selected != [] && dryRun) &&
      (o.NothingNew? <==> selected != [] && !dryRun && plan == []) &&
      (o.Done? <==> selected != [] && !dryRun && plan != []) &&
      (o.DryRun? ==> o == DryRun(|plan|, |Skipped(selected, localExists, force)|)) &&
      (o.NothingNew? ==> o.skipped == |selected|) &&
      (o.Done? ==> attempted == plan && o.downloaded + o.errors == |plan| &&
                   o.downloaded == |Succeeded(plan, succeeds)|)
    ensures !o.Done? ==> attempted == []
  {
    attempted := [];
    if listing.None? {
      return ListFailed, attempted;
    }
    var targets := Targets(listing.value);
    if filterPrefix.Some? && filterPrefix.value != "" {
      targets := WithPrefix(targets, filterPrefix.value);
    }
    if targets == [] {
      return NoTargets, attempted;
    }
    var toDownload, skipped := PartitionTargets(targets, localExists, force);
    PartitionExact(targets, localExists, force);
    if dryRun {
      return DryRun(|toDownload|, |skipped|), attempted;
    }
    if toDownload == [] {
      return NothingNew(|skipped|), attempted;
    }
    var downloaded, errors;
    attempted, downloaded, errors := DownloadAll(toDownload, succeeds);
    o := Done(downloaded, errors);
  }
}
