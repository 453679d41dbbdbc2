/**
 * pull: device to host. Lists both trees, decides each source file, drops
 * each matched destination file and its parent from the orphan tracker, and
 * finally removes whatever the tracker still holds.
 */
module Pull {
  import opened Wrappers
  import opened Paths
  import opened Probe
  import opened Decision
  import opened Listing
  import opened Tracker
  import opened Sync

  /**
   * Whether the loop gets past `file`'s MkdirAll: files whose relative path
   * does not resolve never reach it.
   */
  predicate MkdirPasses(file: string, destinationPath: string, rel: string -> Option<string>, host: Host) {
    match rel(file)
    case None => true
    case Some(r) => host.mkdirAll(Dir(Join(destinationPath, r)))
  }

  /** How many source files the loop processes before a MkdirAll failure stops it. */
  function MkdirStop(sources: seq<string>, destinationPath: string, rel: string -> Option<string>, host: Host): (k: nat)
    ensures k <= |sources|
    ensures k < |sources| ==> !MkdirPasses(sources[k], destinationPath, rel, host)
  {
    if sources == [] then 0
    else if !MkdirPasses(sources[0], destinationPath, rel, host) then 0
    else 1 + MkdirStop(sources[1..], destinationPath, rel, host)
  }

  /** Every file before the stop point gets past its MkdirAll. */
  lemma {:induction false} MkdirStopPrefix(sources: seq<string>, destinationPath: string,
                                           rel: string -> Option<string>, host: Host)
    ensures forall i :: 0 <= i < MkdirStop(sources, destinationPath, rel, host) ==>
              MkdirPasses(sources[i], destinationPath, rel, host)
    decreases |sources|
  {
    if sources != [] && MkdirPasses(sources[0], destinationPath, rel, host) {
      MkdirStopPrefix(sources[1..], destinationPath, rel, host);
      forall i | 0 < i < MkdirStop(sources, destinationPath, rel, host)
        ensures MkdirPasses(sources[i], destinationPath, rel, host)
      {
        assert sources[i] == sources[1..][i - 1];
      }
    }
  }

  /** The destination paths a source file takes off the tracker: its destination file and that file's parent. */
  function Claims(file: string, destinationPath: string, rel: string -> Option<string>): set<string> {
    match rel(file)
    case None => {}
    case Some(r) => {Join(destinationPath, r), Dir(Join(destinationPath, r))}
  }

  function PullClaims(sources: seq<string>, destinationPath: string, rel: string -> Option<string>): set<string> {
    if sources == [] then {}
    else PullClaims(sources[..|sources| - 1], destinationPath, rel) + Claims(sources[|sources| - 1], destinationPath, rel)
  }

  /** The decision for one resolved source file. */
  function PullStep(file: string, destFile: string, options: SyncOptions, device: Device, host: Host): Step
    requires DeviceOk(device)
  {
    var source := SanitizeAndroidPath(file);
    var copy := NeedsCopy(source, destFile, "pull", options.checksum, device, host);
    Step(source, destFile, if copy then Copy(SyncFileRuns(destFile, options.dryRun, host)) else Skip)
  }

  /** The decisions for the resolved source files, in order. */
  function PullSteps(sources: seq<string>, destinationPath: string, rel: string -> Option<string>,
                     options: SyncOptions, device: Device, host: Host): seq<Step>
    requires DeviceOk(device)
  {
    if sources == [] then []
    else
      var init := PullSteps(sources[..|sources| - 1], destinationPath, rel, options, device, host);
      var file := sources[|sources| - 1];
      match rel(file)
      case None => init
      case Some(r) => init + [PullStep(file, Join(destinationPath, r), options, device, host)]
  }

  /** Processing one more source file extends the decisions and the claims by that file's. */
  lemma PullExtend(sources: seq<string>, i: nat, destinationPath: string, rel: string -> Option<string>,
                   options: SyncOptions, device: Device, host: Host)
    requires DeviceOk(device) && i < |sources|
    ensures PullSteps(sources[..i + 1], destinationPath, rel, options, device, host)
         == PullSteps(sources[..i], destinationPath, rel, options, device, host)
            + match rel(sources[i])
              case None => []
              case Some(r) => [PullStep(sources[i], Join(destinationPath, r), options, device, host)]
    ensures PullClaims(sources[..i + 1], destinationPath, rel)
         == PullClaims(sources[..i], destinationPath, rel) + Claims(sources[i], destinationPath, rel)
  {
    assert sources[..i + 1][..i] == sources[..i];
  }

  /** A file whose MkdirAll succeeds is not where the loop stops. */
  lemma MkdirStopPasses(sources: seq<string>, i: nat, destinationPath: string, rel: string -> Option<string>, host: Host)
    requires i <= MkdirStop(sources, destinationPath, rel, host) && i < |sources|
    requires MkdirPasses(sources[i], destinationPath, rel, host)
    ensures i + 1 <= MkdirStop(sources, destinationPath, rel, host)
  {
  }

  /** A file whose MkdirAll fails, reached by the loop, is where it stops. */
  lemma MkdirStopAt(sources: seq<string>, i: nat, destinationPath: string, rel: string -> Option<string>, host: Host)
    requires i <= MkdirStop(sources, destinationPath, rel, host) && i < |sources|
    requires !MkdirPasses(sources[i], destinationPath, rel, host)
    ensures MkdirStop(sources, destinationPath, rel, host) == i
  {
    MkdirStopPrefix(sources, destinationPath, rel, host);
  }

  /**
   * The body of the pull loop for one resolved file, once its directory
   * exists: NeedsCopy, SyncFile when it says so, then the destination file
   * and its parent come off the tracker whatever the decision.
   */
  method ProcessFile(sanitizedSourceFile: string, destFile: string, options: SyncOptions,
                     device: Device, host: Host, tracker: OrphanTracker)
    returns (step: Step)
    requires DeviceOk(device)
    modifies tracker
    ensures step == PullStep(sanitizedSourceFile, destFile, options, device, host)
    ensures tracker.pending.Keys == old(tracker.pending.Keys) - {destFile, Dir(destFile)}
  {
    var action := Skip;
    if NeedsCopy(sanitizedSourceFile, destFile, "pull", options.checksum, device, host) {
      action := Copy(SyncFileRuns(destFile, options.dryRun, host));
    }
    step := Step(sanitizedSourceFile, destFile, action);
    tracker.Delete(destFile);
    tracker.Delete(Dir(destFile));
  }

  /**
   * One iteration of the pull loop, on `sourceFiles[i]`: a file whose
   * relative path does not resolve is skipped; otherwise the destination
   * directory is created, and the loop stops here if that fails; else the
   * file is decided and its destination file and parent leave the tracker.
   */
  method PullOne(sourceFiles: seq<string>, i: nat, destinationPath: string, options: SyncOptions,
                 rel: string -> Option<string>, device: Device, host: Host, tracker: OrphanTracker,
                 ghost seed: set<string>, steps: seq<Step>)
    returns (next: seq<Step>, stopped: bool)
    requires DeviceOk(device) && i < |sourceFiles| && i <= MkdirStop(sourceFiles, destinationPath, rel, host)
    requires steps == PullSteps(sourceFiles[..i], destinationPath, rel, options, device, host)
    requires tracker.pending.Keys == seed - PullClaims(sourceFiles[..i], destinationPath, rel)
    modifies tracker
    ensures stopped <==> MkdirStop(sourceFiles, destinationPath, rel, host) == i
    ensures !stopped ==>
      && next == PullSteps(sourceFiles[..i + 1], destinationPath, rel, options, device, host)
      && tracker.pending.Keys == seed - PullClaims(sourceFiles[..i + 1], destinationPath, rel)
  {
    var file := sourceFiles[i];
    PullExtend(sourceFiles, i, destinationPath, rel, options, device, host);
    next, stopped := steps, false;
    var relativePath := rel(file);
    if relativePath.Some? {
      var destFile := Join(destinationPath, relativePath.value);
      var sanitizedSourceFile := SanitizeAndroidPath(file);
      if !host.mkdirAll(Dir(destFile)) {
        MkdirStopAt(sourceFiles, i, destinationPath, rel, host);
        return steps, true;
      }
      MkdirStopPasses(sourceFiles, i, destinationPath, rel, host);
      ghost var claimed := PullClaims(sourceFiles[..i], destinationPath, rel);
      var step := ProcessFile(sanitizedSourceFile, destFile, options, device, host, tracker);
      next := steps + [step];
      assert Claims(file, destinationPath, rel) == {destFile, Dir(destFile)};
      assert (seed - claimed) - {destFile, Dir(destFile)} == seed - (claimed + {destFile, Dir(destFile)});
    } else {
      MkdirStopPasses(sourceFiles, i, destinationPath, rel, host);
    }
  }

  /**
   * The loop of pull over the source files: a file whose relative path does
   * not resolve is skipped; otherwise the destination directory is created
   * (the loop stops if that fails, dry run or not), the file is decided, and
   * the destination file and its parent are deleted from the tracker whether
   * or not a copy was needed.
   */
  method TrackSources(sourceFiles: seq<string>, destinationPath: string, options: SyncOptions,
                      rel: string -> Option<string>, device: Device, host: Host, tracker: OrphanTracker)
    returns (steps: seq<Step>, finished: bool)
    requires DeviceOk(device)
    modifies tracker
    ensures var k := MkdirStop(sourceFiles, destinationPath, rel, host);
      && (finished <==> k == |sourceFiles|)
      && steps == PullSteps(sourceFiles[..k], destinationPath, rel, options, device, host)
      && (finished ==> tracker.pending.Keys == old(tracker.pending.Keys) - PullClaims(sourceFiles, destinationPath, rel))
  {
    steps := [];
    ghost var seed := tracker.pending.Keys;
    for i := 0 to |sourceFiles|
      invariant i <= MkdirStop(sourceFiles, destinationPath, rel, host)
      invariant steps == PullSteps(sourceFiles[..i], destinationPath, rel, options, device, host)
      invariant tracker.pending.Keys == seed - PullClaims(sourceFiles[..i], destinationPath, rel)
    {
      var next, stopped := PullOne(sourceFiles, i, destinationPath, options, rel, device, host, tracker, seed, steps);
      if stopped {
        return steps, false;
      }
      steps := next;
    }
    assert sourceFiles[..|sourceFiles|] == sourceFiles;
    assert MkdirStop(sourceFiles, destinationPath, rel, host) == |sourceFiles|;
    finished := true;
  }

  /**
   * pull. `rel` stands for filepath.Rel(sourcePath, ·). The report records,
   * in order, the decisions made before the run ended; a completed run also
   * records the leftover paths it reported and those it tried to remove.
   */
  method Pull(sourcePath: string, destinationPath: string, options: SyncOptions,
              rel: string -> Option<string>, device: Device, host: Host) returns (report: Report)
    requires DeviceOk(device)
    ensures report.EnumerationFailed? <==>
      ListingOf(sourcePath, "pull", device, host).ListError? || ListingOf(destinationPath, "push", device, host).ListError?
    ensures !report.EnumerationFailed? ==>
      var sources := ListingOf(sourcePath, "pull", device, host).paths;
      var dests := ListingOf(destinationPath, "push", device, host).paths;
      var k := MkdirStop(sources, destinationPath, rel, host);
      && report.steps == PullSteps(sources[..k], destinationPath, rel, options, device, host)
      && (report.Aborted? <==> k < |sources|)
      && (report.Completed? ==>
            && report.reported == (set p | p in dests) - PullClaims(sources, destinationPath, rel)
            && report.removed == if options.dryRun then {} else report.reported)
  {
    var sourceListing := GetFilesRecursive(sourcePath, "pull", device, host);
    if sourceListing.ListError? {
      return EnumerationFailed;
    }
    var destinationListing := GetFilesRecursive(destinationPath, "push", device, host);
    if destinationListing.ListError? {
      return EnumerationFailed;
    }
    var sourceFiles, destinationFiles := sourceListing.paths, destinationListing.paths;

    var tracker := new OrphanTracker(destinationFiles);
    var steps, finished := TrackSources(sourceFiles, destinationPath, options, rel, device, host, tracker);
    if !finished {
      return Aborted(steps);
    }
    var reported, removed := RemoveLeftovers(tracker.Leftovers(), options.dryRun);
    return Completed(steps, reported, removed);
  }

  /**
   * A destination path is claimed exactly when it is the destination file,
   * or that file's parent, of some source file whose relative path resolves.
   */
  lemma {:induction false} PullClaimsExact(sources: seq<string>, destinationPath: string,
                                           rel: string -> Option<string>, p: string)
    ensures p in PullClaims(sources, destinationPath, rel)
            <==> exists i :: 0 <= i < |sources| && p in Claims(sources[i], destinationPath, rel)
    decreases |sources|
  {
    if sources != [] {
      var n := |sources| - 1;
      var init := sources[..n];
      assert PullClaims(sources, destinationPath, rel)
          == PullClaims(init, destinationPath, rel) + Claims(sources[n], destinationPath, rel);
      PullClaimsExact(init, destinationPath, rel, p);
      if p in PullClaims(init, destinationPath, rel) {
        var i :| 0 <= i < |init| && p in Claims(init[i], destinationPath, rel);
        assert sources[i] == init[i];
      } else if p !in Claims(sources[n], destinationPath, rel) {
        forall i | 0 <= i < |sources| ensures p !in Claims(sources[i], destinationPath, rel) {
          if i < n { assert sources[i] == init[i]; }
        }
      }
    }
  }

  /**
   * The deletion set of a completed pull: only paths of the destination
   * snapshot, never a matched destination file or its parent, and every
   * snapshot path no source file matched.
   */
  lemma PullLeftoversSafe(sources: seq<string>, dests: seq<string>, destinationPath: string,
                          rel: string -> Option<string>)
    ensures var leftovers := (set p | p in dests) - PullClaims(sources, destinationPath, rel);
      && (forall p :: p in leftovers ==> p in dests)
      && (forall i :: 0 <= i < |sources| && rel(sources[i]).Some? ==>
            var destFile := Join(destinationPath, rel(sources[i]).value);
            destFile !in leftovers && Dir(destFile) !in leftovers)
      && (forall p :: p in dests && (forall i :: 0 <= i < |sources| ==> p !in Claims(sources[i], destinationPath, rel))
            ==> p in leftovers)
  {
    var leftovers := (set p | p in dests) - PullClaims(sources, destinationPath, rel);
    forall i | 0 <= i < |sources| && rel(sources[i]).Some?
      ensures var destFile := Join(destinationPath, rel(sources[i]).value);
              destFile !in leftovers && Dir(destFile) !in leftovers
    {
      var destFile := Join(destinationPath, rel(sources[i]).value);
      PullClaimsExact(sources, destinationPath, rel, destFile);
      PullClaimsExact(sources, destinationPath, rel, Dir(destFile));
    }
    forall p | p in dests && (forall i :: 0 <= i < |sources| ==> p !in Claims(sources[i], destinationPath, rel))
      ensures p in leftovers
    {
      PullClaimsExact(sources, destinationPath, rel, p);
    }
  }

  /**
   * Every copy pull decides on before it stops is carried out unless this is
   * a dry run: its destination directory was already created by the loop.
   */
  lemma {:induction false} PullCopiesRunUnlessDryRun(sources: seq<string>, destinationPath: string,
                                                     rel: string -> Option<string>, options: SyncOptions,
                                                     device: Device, host: Host)
    requires DeviceOk(device)
    requires forall i :: 0 <= i < |sources| ==> MkdirPasses(sources[i], destinationPath, rel, host)
    ensures forall s :: s in PullSteps(sources, destinationPath, rel, options, device, host) && s.action.Copy?
                        ==> s.action.issued == !options.dryRun
    decreases |sources|
  {
    if sources != [] {
      var init := sources[..|sources| - 1];
      assert forall i :: 0 <= i < |init| ==> init[i] == sources[i];
      PullCopiesRunUnlessDryRun(init, destinationPath, rel, options, device, host);
      assert MkdirPasses(sources[|sources| - 1], destinationPath, rel, host);
    }
  }

  /**
   * Over the same host and device answers, a dry run makes the same
   * decisions as a real run: the same files, in the same order, the same
   * ones to copy. The effect of one run's copies or directory creation on
   * the answers a later run receives is outside the model.
   */
  lemma {:induction false} DryRunDecidesAlike(sources: seq<string>, destinationPath: string,
                                              rel: string -> Option<string>, checksum: bool,
                                              device: Device, host: Host)
    requires DeviceOk(device)
    ensures var dry := PullSteps(sources, destinationPath, rel, SyncOptions(true, checksum), device, host);
            var actual := PullSteps(sources, destinationPath, rel, SyncOptions(false, checksum), device, host);
            && |dry| == |actual|
            && forall i :: 0 <= i < |dry| ==>
                 dry[i].source == actual[i].source && dry[i].dest == actual[i].dest
                 && dry[i].action.Copy? == actual[i].action.Copy?
    decreases |sources|
  {
    if sources != [] {
      DryRunDecidesAlike(sources[..|sources| - 1], destinationPath, rel, checksum, device, host);
    }
  }
}
