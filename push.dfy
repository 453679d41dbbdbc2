/**
 * push: host to device. Lists both trees, decides each source file, and
 * replaces the orphan map by DeleteAllParentDirectories of it for each
 * matched destination file; whatever is left is removed from the device.
 */
module Push {
  import opened Wrappers
  import opened Paths
  import opened Probe
  import opened Decision
  import opened Listing
  import opened Tracker
  import opened Sync

  /**
   * The orphan map after the loop: starting from `seed`, each source file
   * whose relative path resolves applies `deleteAll` to its destination file.
   */
  function PushRemaining(seed: map<string, bool>, sources: seq<string>, destinationPath: string,
                         rel: string -> Option<string>,
                         deleteAll: (map<string, bool>, string) -> map<string, bool>): map<string, bool>
  {
    if sources == [] then seed
    else
      var init := PushRemaining(seed, sources[..|sources| - 1], destinationPath, rel, deleteAll);
      match rel(sources[|sources| - 1])
      case None => init
      case Some(r) => deleteAll(init, Join(destinationPath, r))
  }

  /**
   * The decision for one resolved source file: the copy decision and the
   * copy use the sanitized destination path.
   */
  function PushStep(file: string, destFile: string, options: SyncOptions, device: Device, host: Host): Step
    requires DeviceOk(device)
  {
    var sanitizedDestFile := SanitizeAndroidPath(destFile);
    var copy := NeedsCopy(file, sanitizedDestFile, "push", options.checksum, device, host);
    Step(file, sanitizedDestFile, if copy then Copy(SyncFileRuns(sanitizedDestFile, options.dryRun, host)) else Skip)
  }

  function PushSteps(sources: seq<string>, destinationPath: string, rel: string -> Option<string>,
                     options: SyncOptions, device: Device, host: Host): seq<Step>
    requires DeviceOk(device)
  {
    if sources == [] then []
    else
      var init := PushSteps(sources[..|sources| - 1], destinationPath, rel, options, device, host);
      var file := sources[|sources| - 1];
      match rel(file)
      case None => init
      case Some(r) => init + [PushStep(file, Join(destinationPath, r), options, device, host)]
  }

  /** Processing one more source file extends the decisions and applies `deleteAll` once more. */
  lemma PushExtend(seed: map<string, bool>, sources: seq<string>, i: nat, destinationPath: string,
                   rel: string -> Option<string>, deleteAll: (map<string, bool>, string) -> map<string, bool>,
                   options: SyncOptions, device: Device, host: Host)
    requires DeviceOk(device) && i < |sources|
    ensures PushSteps(sources[..i + 1], destinationPath, rel, options, device, host)
         == PushSteps(sources[..i], destinationPath, rel, options, device, host)
            + match rel(sources[i])
              case None => []
              case Some(r) => [PushStep(sources[i], Join(destinationPath, r), options, device, host)]
    ensures PushRemaining(seed, sources[..i + 1], destinationPath, rel, deleteAll)
         == match rel(sources[i])
            case None => PushRemaining(seed, sources[..i], destinationPath, rel, deleteAll)
            case Some(r) => deleteAll(PushRemaining(seed, sources[..i], destinationPath, rel, deleteAll), Join(destinationPath, r))
  {
    assert sources[..i + 1][..i] == sources[..i];
  }

  /**
   * The loop of push over the source files: a file whose relative path does
   * not resolve is skipped; otherwise it is decided and the tracker is
   * replaced by DeleteAllParentDirectories of the unsanitized destination
   * path, whether or not a copy was needed.
   */
  method TrackSources(sourceFiles: seq<string>, destinationPath: string, options: SyncOptions,
                      rel: string -> Option<string>, deleteAll: (map<string, bool>, string) -> map<string, bool>,
                      device: Device, host: Host, tracker: OrphanTracker)
    returns (steps: seq<Step>)
    requires DeviceOk(device) && RemovesFileAndParent(deleteAll)
    modifies tracker
    ensures steps == PushSteps(sourceFiles, destinationPath, rel, options, device, host)
    ensures tracker.pending == PushRemaining(old(tracker.pending), sourceFiles, destinationPath, rel, deleteAll)
  {
    steps := [];
    for i := 0 to |sourceFiles|
      invariant steps == PushSteps(sourceFiles[..i], destinationPath, rel, options, device, host)
      invariant tracker.pending == PushRemaining(old(tracker.pending), sourceFiles[..i], destinationPath, rel, deleteAll)
    {
      var file := sourceFiles[i];
      PushExtend(old(tracker.pending), sourceFiles, i, destinationPath, rel, deleteAll, options, device, host);
      var relativePath := rel(file);
      if relativePath.Some? {
        var destFile := Join(destinationPath, relativePath.value);
        var sanitizedDestFile := SanitizeAndroidPath(destFile);
        var action := Skip;
        if NeedsCopy(file, sanitizedDestFile, "push", options.checksum, device, host) {
          action := Copy(SyncFileRuns(sanitizedDestFile, options.dryRun, host));
        }
        steps := steps + [Step(file, sanitizedDestFile, action)];
        tracker.DeleteAll(deleteAll, destFile);
      }
    }
    assert sourceFiles[..|sourceFiles|] == sourceFiles;
  }

  /**
   * push. `rel` stands for filepath.Rel(sourcePath, ·) and `deleteAll` for
   * DeleteAllParentDirectories, of which only its promise is known.
   */
  method Push(sourcePath: string, destinationPath: string, options: SyncOptions,
              rel: string -> Option<string>, deleteAll: (map<string, bool>, string) -> map<string, bool>,
              device: Device, host: Host) returns (report: Report)
    requires DeviceOk(device) && RemovesFileAndParent(deleteAll)
    ensures report.EnumerationFailed? <==>
      ListingOf(sourcePath, "push", device, host).ListError? || ListingOf(destinationPath, "pull", device, host).ListError?
    ensures !report.EnumerationFailed? ==>
      var sources := ListingOf(sourcePath, "push", device, host).paths;
      var dests := ListingOf(destinationPath, "pull", device, host).paths;
      var leftovers := PushRemaining(Seeded(dests), sources, destinationPath, rel, deleteAll).Keys;
      && report.Completed?
      && report.steps == PushSteps(sources, destinationPath, rel, options, device, host)
      && report.reported == (set d | d in leftovers :: SanitizeAndroidPath(d))
      && report.removed == if options.dryRun then {} else report.reported
  {
    var sourceListing := GetFilesRecursive(sourcePath, "push", device, host);
    if sourceListing.ListError? {
      return EnumerationFailed;
    }
    var destinationListing := GetFilesRecursive(destinationPath, "pull", device, host);
    if destinationListing.ListError? {
      return EnumerationFailed;
    }
    var sourceFiles, destinationFiles := sourceListing.paths, destinationListing.paths;

    var tracker := new OrphanTracker(destinationFiles);
    var steps := TrackSources(sourceFiles, destinationPath, options, rel, deleteAll, device, host, tracker);
    var sanitized := set d | d in tracker.Leftovers() :: SanitizeAndroidPath(d);
    var reported, removed := RemoveLeftovers(sanitized, options.dryRun);
    return Completed(steps, reported, removed);
  }

  /**
   * Whatever DeleteAllParentDirectories does beyond its promise, the map
   * after the loop holds only seeded paths and no matched destination file or
   * parent of one.
   */
  lemma {:induction false} PushRemainingSafe(seed: map<string, bool>, sources: seq<string>, destinationPath: string,
                                             rel: string -> Option<string>,
                                             deleteAll: (map<string, bool>, string) -> map<string, bool>)
    requires RemovesFileAndParent(deleteAll)
    ensures var remaining := PushRemaining(seed, sources, destinationPath, rel, deleteAll).Keys;
      && remaining <= seed.Keys
      && forall i :: 0 <= i < |sources| && rel(sources[i]).Some? ==>
           var destFile := Join(destinationPath, rel(sources[i]).value);
           destFile !in remaining && Dir(destFile) !in remaining
    decreases |sources|
  {
    if sources != [] {
      var n := |sources| - 1;
      var init := sources[..n];
      PushRemainingSafe(seed, init, destinationPath, rel, deleteAll);
      var before := PushRemaining(seed, init, destinationPath, rel, deleteAll);
      var after := PushRemaining(seed, sources, destinationPath, rel, deleteAll);
      assert after.Keys <= before.Keys by {
        match rel(sources[n])
        case None =>
        case Some(r) => assert after == deleteAll(before, Join(destinationPath, r));
      }
      forall i | 0 <= i < |sources| && rel(sources[i]).Some?
        ensures var destFile := Join(destinationPath, rel(sources[i]).value);
                destFile !in after.Keys && Dir(destFile) !in after.Keys
      {
        if i < n {
          assert sources[i] == init[i];
        } else {
          assert after == deleteAll(before, Join(destinationPath, rel(sources[n]).value));
        }
      }
    }
  }

  /** With the seed taken from the destination listing: the deletion set of a completed push is safe. */
  lemma PushLeftoversSafe(sources: seq<string>, dests: seq<string>, destinationPath: string,
                          rel: string -> Option<string>,
                          deleteAll: (map<string, bool>, string) -> map<string, bool>)
    requires RemovesFileAndParent(deleteAll)
    ensures var leftovers := PushRemaining(Seeded(dests), sources, destinationPath, rel, deleteAll).Keys;
      && (forall p :: p in leftovers ==> p in dests)
      && forall i :: 0 <= i < |sources| && rel(sources[i]).Some? ==>
           var destFile := Join(destinationPath, rel(sources[i]).value);
           destFile !in leftovers && Dir(destFile) !in leftovers
  {
    PushRemainingSafe(Seeded(dests), sources, destinationPath, rel, deleteAll);
  }
}
