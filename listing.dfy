/**
 * Tree enumeration: GetFilesRecursive dispatches on the command, walking
 * the host tree for "push" and parsing the device's `ls -R` text for
 * "pull" (parseAdbLsOutput).
 */
module Listing {
  import opened Wrappers
  import opened Text
  import opened Paths
  import opened Probe

  /** Is a trimmed `ls -R` line a "<directory>:" header? */
  predicate IsHeader(line: string) {
    HasSuffix(line, ':')
  }

  /**
   * The paths a run of listing lines yields when `dir` is the directory in
   * force before the first of them: a header switches the directory, a blank
   * line yields nothing, any other line yields the directory joined with it.
   */
  function ListingPaths(lines: seq<string>, dir: string): seq<string>
    decreases |lines|
  {
    if lines == [] then []
    else
      var line := TrimSpace(lines[0]);
      if IsHeader(line) then ListingPaths(lines[1..], TrimSuffix(line, ':'))
      else if line == "" then ListingPaths(lines[1..], dir)
      else [Join(dir, line)] + ListingPaths(lines[1..], dir)
  }

  /** The directory in force after the lines, starting from `dir`. */
  function CurrentDir(lines: seq<string>, dir: string): string
    decreases |lines|
  {
    if lines == [] then dir
    else
      var line := TrimSpace(lines[0]);
      CurrentDir(lines[1..], if IsHeader(line) then TrimSuffix(line, ':') else dir)
  }

  /** The paths of a whole `ls -R` reply: its lines, starting with no directory. */
  function LsPaths(output: string): seq<string> {
    ListingPaths(Split(output, '\n'), "")
  }

  /** parseAdbLsOutput: split the reply into lines and parse them. */
  method ParseAdbLsOutput(output: string) returns (filePaths: seq<string>)
    ensures filePaths == LsPaths(output)
  {
    var lines := Split(output, '\n');
    filePaths := ParseLines(lines);
  }

  /** The loop of parseAdbLsOutput: one pass over the lines, keeping the current directory. */
  method ParseLines(lines: seq<string>) returns (filePaths: seq<string>)
    ensures filePaths == ListingPaths(lines, "")
  {
    filePaths := [];
    var dirPath := "";
    for i := 0 to |lines|
      invariant filePaths + ListingPaths(lines[i..], dirPath) == ListingPaths(lines, "")
    {
      var line := TrimSpace(lines[i]);
      var rest := ListingPaths(lines[i + 1..], if IsHeader(line) then TrimSuffix(line, ':') else dirPath);
      assert lines[i..][0] == lines[i] && lines[i..][1..] == lines[i + 1..];
      ListingHead(lines[i..], dirPath);
      if IsHeader(line) {
        dirPath := TrimSuffix(line, ':');
      } else if line != "" {
        assert filePaths + ([Join(dirPath, line)] + rest) == (filePaths + [Join(dirPath, line)]) + rest;
        filePaths := filePaths + [Join(dirPath, line)];
      }
    }
    assert lines[|lines|..] == [];
    assert filePaths + [] == filePaths;
  }

  /**
   * What one more line does to the parse: a header adds nothing and becomes
   * the current directory; a blank line adds nothing; any other line adds
   * exactly one path, the current directory joined with the trimmed line,
   * after all earlier ones.
   */
  lemma {:induction false} ListingAppendLine(lines: seq<string>, dir: string, line: string)
    ensures var t := TrimSpace(line);
            ListingPaths(lines + [line], dir)
            == ListingPaths(lines, dir) + (if IsHeader(t) || t == "" then [] else [Join(CurrentDir(lines, dir), t)])
    decreases |lines|
  {
    var t := TrimSpace(line);
    var added := if IsHeader(t) || t == "" then [] else [Join(CurrentDir(lines, dir), t)];
    if lines != [] {
      var first := TrimSpace(lines[0]);
      var next := if IsHeader(first) then TrimSuffix(first, ':') else dir;
      var head := if IsHeader(first) || first == "" then [] else [Join(dir, first)];
      var longer := lines + [line];
      assert longer[0] == lines[0];
      assert longer[1..] == lines[1..] + [line];
      ListingHead(longer, dir);
      ListingHead(lines, dir);
      ListingAppendLine(lines[1..], next, line);
      assert CurrentDir(lines, dir) == CurrentDir(lines[1..], next);
      assert head + (ListingPaths(lines[1..], next) + added) == (head + ListingPaths(lines[1..], next)) + added;
    } else {
      assert [] + [line] == [line];
      ListingHead([line], dir);
    }
  }

  /** The listing of a non-empty run of lines: the first line's contribution, then the rest's. */
  lemma ListingHead(lines: seq<string>, dir: string)
    requires lines != []
    ensures var t := TrimSpace(lines[0]);
      ListingPaths(lines, dir)
      == (if IsHeader(t) || t == "" then [] else [Join(dir, t)])
         + ListingPaths(lines[1..], if IsHeader(t) then TrimSuffix(t, ':') else dir)
  {
    var t := TrimSpace(lines[0]);
    if IsHeader(t) || t == "" {
      assert [] + ListingPaths(lines[1..], if IsHeader(t) then TrimSuffix(t, ':') else dir)
          == ListingPaths(lines[1..], if IsHeader(t) then TrimSuffix(t, ':') else dir);
    }
  }

  /** One more line makes its header the current directory, or keeps the one in force. */
  lemma {:induction false} CurrentDirAppendLine(lines: seq<string>, dir: string, line: string)
    ensures var t := TrimSpace(line);
            CurrentDir(lines + [line], dir) == if IsHeader(t) then TrimSuffix(t, ':') else CurrentDir(lines, dir)
    decreases |lines|
  {
    if lines != [] {
      assert (lines + [line])[0] == lines[0];
      assert (lines + [line])[1..] == lines[1..] + [line];
      var first := TrimSpace(lines[0]);
      CurrentDirAppendLine(lines[1..], if IsHeader(first) then TrimSuffix(first, ':') else dir, line);
    } else {
      assert [] + [line] == [line];
    }
  }

  /** Lines that are all entries: trimmed, non-blank and never headers. */
  function Entries(lines: seq<string>): seq<string> {
    if lines == [] then []
    else
      var t := TrimSpace(lines[0]);
      (if t == "" then [] else [t]) + Entries(lines[1..])
  }

  /** With no header line at all, every entry comes out as its bare name. */
  lemma {:induction false} HeaderlessListing(lines: seq<string>)
    requires forall i :: 0 <= i < |lines| ==> !IsHeader(TrimSpace(lines[i]))
    ensures ListingPaths(lines, "") == Entries(lines)
  {
    if lines != [] {
      assert !IsHeader(TrimSpace(lines[0]));
      HeaderlessListing(lines[1..]);
    }
  }

  /** A directory block of `ls -R` output: the header's directory and the names under it. */
  datatype Block = Block(dir: string, names: seq<string>)

  /** A name `ls` can print that the parser reads back as one entry. */
  predicate GoodName(name: string) {
    name != "" && Trimmed(name) && !IsHeader(name) && '\n' !in name
  }

  predicate GoodBlock(b: Block) {
    (b.dir == "" || !IsSpace(b.dir[0])) && '\n' !in b.dir
    && forall i :: 0 <= i < |b.names| ==> GoodName(b.names[i])
  }

  /** The lines of one block: its header, its names, the blank separator line. */
  function BlockLines(b: Block): seq<string> {
    [b.dir + ":"] + b.names + [""]
  }

  function RenderLines(blocks: seq<Block>): seq<string> {
    if blocks == [] then [] else BlockLines(blocks[0]) + RenderLines(blocks[1..])
  }

  /** Every name of a block joined onto the block's directory. */
  function JoinAll(dir: string, names: seq<string>): seq<string> {
    if names == [] then [] else [Join(dir, names[0])] + JoinAll(dir, names[1..])
  }

  function BlockPaths(blocks: seq<Block>): seq<string> {
    if blocks == [] then [] else JoinAll(blocks[0].dir, blocks[0].names) + BlockPaths(blocks[1..])
  }

  lemma {:induction false} NamesParse(dir: string, names: seq<string>, rest: seq<string>)
    requires forall i :: 0 <= i < |names| ==> GoodName(names[i])
    ensures ListingPaths(names + rest, dir) == JoinAll(dir, names) + ListingPaths(rest, dir)
  {
    if names == [] {
      assert names + rest == rest;
    } else {
      assert (names + rest)[0] == names[0];
      assert (names + rest)[1..] == names[1..] + rest;
      assert TrimSpace(names[0]) == names[0];
      NamesParse(dir, names[1..], rest);
    }
  }

  /** One well-formed block, followed by anything, parses to its joined names and sets the directory. */
  lemma BlockParse(b: Block, rest: seq<string>, dir: string)
    requires GoodBlock(b)
    ensures ListingPaths(BlockLines(b) + rest, dir) == JoinAll(b.dir, b.names) + ListingPaths(rest, b.dir)
  {
    var header := b.dir + ":";
    assert BlockLines(b) + rest == [header] + (b.names + ([""] + rest));
    assert TrimSpace(header) == header by {
      assert header[|header| - 1] == ':';
    }
    assert TrimSuffix(header, ':') == b.dir;
    NamesParse(b.dir, b.names, [""] + rest);
    assert ([""] + rest)[1..] == rest;
  }

  lemma {:induction false} BlocksParse(blocks: seq<Block>, dir: string)
    requires forall i :: 0 <= i < |blocks| ==> GoodBlock(blocks[i])
    ensures ListingPaths(RenderLines(blocks), dir) == BlockPaths(blocks)
  {
    if blocks != [] {
      assert GoodBlock(blocks[0]);
      BlockParse(blocks[0], RenderLines(blocks[1..]), dir);
      BlocksParse(blocks[1..], blocks[0].dir);
    }
  }

  /**
   * Round trip: the text `ls -R` prints for well-formed directory blocks
   * parses back to each block's names joined onto its directory, in order.
   */
  lemma ParseOfRenderedListing(blocks: seq<Block>)
    requires blocks != []
    requires forall i :: 0 <= i < |blocks| ==> GoodBlock(blocks[i])
    ensures LsPaths(JoinWith(RenderLines(blocks), '\n')) == BlockPaths(blocks)
  {
    var lines := RenderLines(blocks);
    assert |lines| >= 1 by { assert |BlockLines(blocks[0])| >= 2; }
    LinesHaveNoNewline(blocks);
    SplitJoin(lines, '\n');
    BlocksParse(blocks, "");
  }

  lemma {:induction false} LinesHaveNoNewline(blocks: seq<Block>)
    requires forall i :: 0 <= i < |blocks| ==> GoodBlock(blocks[i])
    ensures forall i :: 0 <= i < |RenderLines(blocks)| ==> '\n' !in RenderLines(blocks)[i]
  {
    if blocks != [] {
      var b := blocks[0];
      assert GoodBlock(b);
      LinesHaveNoNewline(blocks[1..]);
      var lines := RenderLines(blocks);
      assert lines == BlockLines(b) + RenderLines(blocks[1..]);
      forall i | 0 <= i < |lines| ensures '\n' !in lines[i] {
        if i == 0 {
          assert lines[0] == b.dir + ":";
        } else if i <= |b.names| {
          assert lines[i] == b.names[i - 1];
        } else if i == |b.names| + 1 {
          assert lines[i] == "";
        } else {
          assert lines[i] == RenderLines(blocks[1..])[i - |b.names| - 2];
        }
      }
    }
  }

  /** The outcome of enumerating a tree. */
  datatype Enumeration = Files(paths: seq<string>) | ListError

  /** The paths of the non-directory visits, in visiting order. */
  function WalkFiles(visits: seq<Visit>): seq<string> {
    if visits == [] then []
    else
      var last := visits[|visits| - 1];
      WalkFiles(visits[..|visits| - 1]) + (if last.Entry? && !last.isDir then [last.path] else [])
  }

  /** The walk reached a path it could not read. */
  predicate WalkFailed(visits: seq<Visit>) {
    exists i :: 0 <= i < |visits| && visits[i].WalkError?
  }

  /** A path is listed exactly when the walk visited it as a non-directory. */
  lemma {:induction false} WalkFilesMembership(visits: seq<Visit>, p: string)
    ensures p in WalkFiles(visits) <==> Entry(p, false) in visits
  {
    if visits != [] {
      var n := |visits| - 1;
      var init, last := visits[..n], visits[n];
      WalkFilesMembership(init, p);
      assert visits == init + [last];
      var extra := if last.Entry? && !last.isDir then [last.path] else [];
      assert WalkFiles(visits) == WalkFiles(init) + extra;
      assert p in extra <==> last == Entry(p, false);
    }
  }

  /** What GetFilesRecursive returns for the tree at `path`. */
  function ListingOf(path: string, command: string, device: Device, host: Host): Enumeration {
    if command == "push" then
      if WalkFailed(host.walk(path)) then ListError else Files(WalkFiles(host.walk(path)))
    else if command == "pull" then
      match device.ls(path)
      case None => ListError
      case Some(output) => Files(LsPaths(output))
    else
      ListError
  }

  /**
   * GetFilesRecursive: "push" walks the host tree, collecting non-directories
   * and stopping at the first error; "pull" parses the device's listing; any
   * other command is an error.
   */
  method GetFilesRecursive(path: string, command: string, device: Device, host: Host) returns (r: Enumeration)
    ensures r == ListingOf(path, command, device, host)
  {
    if command == "push" {
      var visits := host.walk(path);
      var files: seq<string> := [];
      var i := 0;
      while i < |visits|
        invariant 0 <= i <= |visits|
        invariant files == WalkFiles(visits[..i])
        invariant forall j :: 0 <= j < i ==> visits[j].Entry?
      {
        assert visits[..i + 1][..i] == visits[..i];
        if visits[i].WalkError? {
          return ListError;
        }
        if !visits[i].isDir {
          files := files + [visits[i].path];
        }
        i := i + 1;
      }
      assert visits[..i] == visits;
      return Files(files);
    } else if command == "pull" {
      var output := device.ls(path);
      if output.None? {
        return ListError;
      }
      var filePaths := ParseAdbLsOutput(output.value);
      return Files(filePaths);
    }
    return ListError;
  }
}
