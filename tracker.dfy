/**
 * The orphan tracker of pull and push: a map from destination path to
 * `true`, seeded with the destination tree, from which every matched path is
 * deleted. What is left is the set of paths to remove.
 */
module Tracker {
  import opened Paths

  /** The map a snapshot seeds: every listed path, mapped to true. */
  function Seeded(snapshot: seq<string>): (m: map<string, bool>)
    ensures m.Keys == set p | p in snapshot
    ensures forall p :: p in m ==> m[p]
  {
    map p | p in snapshot :: true
  }

  /**
   * The promise of DeleteAllParentDirectories(m, path), whose body is not
   * part of this model: the result has only keys of `m`, and neither `path`
   * nor its parent directory.
   */
  ghost predicate RemovesFileAndParent(deleteAll: (map<string, bool>, string) -> map<string, bool>) {
    forall m, path :: deleteAll(m, path).Keys <= m.Keys - {path, Dir(path)}
  }

  /**
   * One function that keeps that promise: it removes the path and every
   * ancestor up to the top.
   */
  function DeleteAncestorChain(m: map<string, bool>, path: string): (r: map<string, bool>)
    ensures r.Keys <= m.Keys - {path, Dir(path)}
    decreases |path|
  {
    var parent := Dir(path);
    if |parent| < |path| then DeleteAncestorChain(m - {path}, parent)
    else m - {path, parent}
  }

  lemma AncestorChainKeepsPromise()
    ensures RemovesFileAndParent(DeleteAncestorChain)
  {
  }

  class OrphanTracker {
    /** The destination paths not yet matched by a source file. */
    var pending: map<string, bool>

    /** Seeds the map from the destination snapshot, one path at a time. */
    constructor (destinationFiles: seq<string>)
      ensures pending == Seeded(destinationFiles)
    {
      pending := map[];
      new;
      for i := 0 to |destinationFiles|
        invariant pending == Seeded(destinationFiles[..i])
      {
        assert destinationFiles[..i + 1] == destinationFiles[..i] + [destinationFiles[i]];
        pending := pending[destinationFiles[i] := true];
      }
      assert destinationFiles[..|destinationFiles|] == destinationFiles;
    }

    /** delete(map, path): drops the key if it is there; nothing else changes. */
    method Delete(path: string)
      modifies this
      ensures pending == old(pending) - {path}
    {
      pending := pending - {path};
    }

    /** map = DeleteAllParentDirectories(map, path). */
    method DeleteAll(deleteAll: (map<string, bool>, string) -> map<string, bool>, path: string)
      requires RemovesFileAndParent(deleteAll)
      modifies this
      ensures pending == deleteAll(old(pending), path)
      ensures pending.Keys <= old(pending).Keys - {path, Dir(path)}
    {
      pending := deleteAll(pending, path);
    }

    /** The paths still tracked: the ones the final loop removes. */
    function Leftovers(): set<string>
      reads this
    {
      pending.Keys
    }
  }
}
