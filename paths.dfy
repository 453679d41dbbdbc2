/**
 * Slash-separated paths as the sync engine builds them: filepath.Join of a
 * directory and a name, filepath.Dir, and the ToSlash conversion behind
 * SanitizeAndroidPath. Lexical cleaning (".", "..", repeated slashes) is
 * not modelled.
 */
module Paths {

  /** filepath.Join(dir, name) for one directory and one name. */
  function Join(dir: string, name: string): (p: string)
    ensures dir == "" ==> p == name
    ensures name == "" ==> p == dir
  {
    if dir == "" then name
    else if name == "" then dir
    else if dir[|dir| - 1] == '/' then dir + name
    else dir + "/" + name
  }

  /** Position of the last `c` in `s`, or -1. */
  function LastIndexOf(s: string, c: char): (i: int)
    ensures -1 <= i < |s|
    ensures i >= 0 ==> s[i] == c
    ensures forall k :: i < k < |s| ==> s[k] != c
  {
    if s == [] then -1
    else if s[|s| - 1] == c then |s| - 1
    else
      var j := LastIndexOf(s[..|s| - 1], c);
      assert forall k :: j < k < |s| - 1 ==> s[k] == s[..|s| - 1][k];
      j
  }

  /** filepath.Dir: everything before the last slash; "." for a bare name, "/" for a top-level entry. */
  function Dir(p: string): (d: string)
    ensures '/' !in p ==> d == "."
  {
    var i := LastIndexOf(p, '/');
    if i < 0 then "."
    else if i == 0 then "/"
    else p[..i]
  }

  /** The parent of a joined path is the directory it was joined onto. */
  lemma DirOfJoin(dir: string, name: string)
    requires dir != "" && dir[|dir| - 1] != '/'
    requires name != "" && '/' !in name
    ensures Dir(Join(dir, name)) == dir
  {
    var p := Join(dir, name);
    assert p == dir + "/" + name;
    assert p[|dir| + 1..] == name;
    var i := LastIndexOf(p, '/');
    assert p[|dir|] == '/';
    assert forall k :: |dir| < k < |p| ==> p[k] != '/' by {
      forall k | |dir| < k < |p| ensures p[k] != '/' { assert p[k] == name[k - |dir| - 1]; }
    }
    assert i == |dir|;
  }

  /**
   * SanitizeAndroidPath, i.e. filepath.ToSlash. The host is taken to use '/'
   * as its separator, where ToSlash returns its argument unchanged.
   */
  function SanitizeAndroidPath(p: string): string {
    p
  }
}
