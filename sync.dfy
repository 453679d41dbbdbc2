/**
 * What a sync run does, as a record: the per-file decisions in source order,
 * then the leftover destination paths it reports and the ones it tries to
 * remove.
 */
module Sync {
  import opened Paths
  import opened Probe

  /** The --dry-run and --checksum flags of one run. */
  datatype SyncOptions = SyncOptions(dryRun: bool, checksum: bool)

  /** Skipped as up to date, or due for a copy; `issued` says whether the adb copy command was run. */
  datatype Action = Skip | Copy(issued: bool)

  datatype Step = Step(source: string, dest: string, action: Action)

  datatype Report =
    | EnumerationFailed
      /** pull stopped because a destination directory could not be created */
    | Aborted(steps: seq<Step>)
    | Completed(steps: seq<Step>, reported: set<string>, removed: set<string>)

  /**
   * SyncFile: under dry-run nothing happens; otherwise the host directory
   * for the destination is created and, if that succeeds, the adb copy
   * command runs. The result says whether it ran.
   */
  function SyncFileRuns(destFile: string, dryRun: bool, host: Host): (runs: bool)
    ensures runs ==> !dryRun
    ensures !host.mkdirAll(Dir(destFile)) ==> !runs
    ensures !dryRun && host.mkdirAll(Dir(destFile)) ==> runs
  {
    if dryRun then false
    else host.mkdirAll(Dir(destFile))
  }

  /**
   * The final loop over the tracker's leftovers: every leftover is reported;
   * removal is attempted for each unless this is a dry run, and a failed
   * removal does not stop the loop.
   */
  method RemoveLeftovers(leftovers: set<string>, dryRun: bool) returns (reported: set<string>, removed: set<string>)
    ensures reported == leftovers
    ensures removed == if dryRun then {} else leftovers
  {
    reported, removed := {}, {};
    var remaining := leftovers;
    while remaining != {}
      invariant remaining <= leftovers
      invariant reported == leftovers - remaining
      invariant removed == if dryRun then {} else reported
      decreases remaining
    {
      var destFile :| destFile in remaining;
      reported := reported + {destFile};
      if !dryRun {
        removed := removed + {destFile};
      }
      remaining := remaining - {destFile};
    }
  }
}
