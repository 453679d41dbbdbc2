/**
 * The pieces of Go's `strings` package that the sync engine uses on command
 * output: TrimSpace, Split on a one-character separator, HasSuffix and
 * TrimSuffix with a one-character suffix.
 */
module Text {

  /** Go's unicode.IsSpace: the characters strings.TrimSpace strips. */
  predicate IsSpace(c: char) {
    c == ' ' || c == '\t' || c == '\n' || c == '\r' || c == '\U{000B}' || c == '\U{000C}'
    || c == '\U{0085}' || c == '\U{00A0}' || c == '\U{1680}'
    || ('\U{2000}' <= c <= '\U{200A}')
    || c == '\U{2028}' || c == '\U{2029}' || c == '\U{202F}' || c == '\U{205F}' || c == '\U{3000}'
  }

  /** Neither starts nor ends with white space. */
  predicate Trimmed(s: string) {
    s == [] || (!IsSpace(s[0]) && !IsSpace(s[|s| - 1]))
  }

  predicate AllSpace(s: string) {
    forall i :: 0 <= i < |s| ==> IsSpace(s[i])
  }

  /** Drops leading white space. */
  function TrimLeft(s: string): string {
    if s != [] && IsSpace(s[0]) then TrimLeft(s[1..]) else s
  }

  /** TrimLeft cuts a run of white space off the front and stops at the first other character. */
  lemma {:induction false} TrimLeftFacts(s: string)
    ensures var r := TrimLeft(s);
      && |r| <= |s| && r == s[|s| - |r|..]
      && AllSpace(s[..|s| - |r|])
      && (r == [] || !IsSpace(r[0]))
  {
    if s != [] && IsSpace(s[0]) {
      TrimLeftFacts(s[1..]);
      var r := TrimLeft(s);
      assert s[..|s| - |r|] == [s[0]] + s[1..][..|s| - 1 - |r|];
    }
  }

  /** Drops trailing white space. */
  function TrimRight(s: string): string {
    if s != [] && IsSpace(s[|s| - 1]) then TrimRight(s[..|s| - 1]) else s
  }

  /** TrimRight cuts a run of white space off the end and stops at the last other character. */
  lemma {:induction false} TrimRightFacts(s: string)
    ensures var r := TrimRight(s);
      && |r| <= |s| && r == s[..|r|]
      && AllSpace(s[|r|..])
      && (r == [] || !IsSpace(r[|r| - 1]))
  {
    if s != [] && IsSpace(s[|s| - 1]) {
      TrimRightFacts(s[..|s| - 1]);
      var r := TrimRight(s);
      assert s[|r|..] == s[..|s| - 1][|r|..] + [s[|s| - 1]];
    }
  }

  /** strings.TrimSpace: the input without its leading and trailing white space. */
  function TrimSpace(s: string): (r: string)
    ensures Trimmed(r)
    ensures |r| <= |s|
    ensures Trimmed(s) ==> r == s
  {
    TrimLeftFacts(s);
    TrimRightFacts(TrimLeft(s));
    var left := TrimLeft(s);
    assert left != [] ==> left[0] == TrimRight(left)[0] || TrimRight(left) == [];
    TrimRight(left)
  }

  /** TrimSpace undoes any white-space padding of a trimmed text. */
  lemma {:induction false} TrimSpaceOfPadded(pre: string, s: string, post: string)
    requires AllSpace(pre) && AllSpace(post) && Trimmed(s) && s != []
    ensures TrimSpace(pre + s + post) == s
  {
    assert pre + s + post == pre + (s + post);
    assert (s + post)[0] == s[0];
    TrimLeftOfPadded(pre, s + post);
    TrimRightOfPadded(s, post);
  }

  lemma {:induction false} TrimLeftOfPadded(pre: string, s: string)
    requires AllSpace(pre) && s != [] && !IsSpace(s[0])
    ensures TrimLeft(pre + s) == s
  {
    if pre != [] {
      assert (pre + s)[1..] == pre[1..] + s;
      TrimLeftOfPadded(pre[1..], s);
    }
  }

  lemma {:induction false} TrimRightOfPadded(s: string, post: string)
    requires AllSpace(post) && s != [] && !IsSpace(s[|s| - 1])
    ensures TrimRight(s + post) == s
  {
    if post != [] {
      assert (s + post)[..|s + post| - 1] == s + post[..|post| - 1];
      TrimRightOfPadded(s, post[..|post| - 1]);
    } else {
      assert s + post == s;
    }
  }

  /** When `s` ends in a non-space, trimming `s + t` on the right keeps all of `s`. */
  lemma {:induction false} TrimRightKeeps(s: string, t: string)
    requires s != [] && !IsSpace(s[|s| - 1])
    ensures |s| <= |TrimRight(s + t)| && TrimRight(s + t)[..|s|] == s
  {
    if t != [] && IsSpace(t[|t| - 1]) {
      assert (s + t)[..|s + t| - 1] == s + t[..|t| - 1];
      TrimRightKeeps(s, t[..|t| - 1]);
    } else if t == [] {
      assert s + t == s;
    }
  }

  /** strings.HasSuffix(s, string(c)). */
  predicate HasSuffix(s: string, c: char) {
    |s| > 0 && s[|s| - 1] == c
  }

  /** strings.TrimSuffix(s, string(c)): removes one trailing `c`, if there is one. */
  function TrimSuffix(s: string, c: char): (r: string)
    ensures HasSuffix(s, c) ==> r + [c] == s
    ensures !HasSuffix(s, c) ==> r == s
  {
    if HasSuffix(s, c) then s[..|s| - 1] else s
  }

  /** Position of the first `c` in `s`. */
  function IndexOf(s: string, c: char): (i: nat)
    requires c in s
    ensures i < |s| && s[i] == c && c !in s[..i]
  {
    if s[0] == c then 0 else 1 + IndexOf(s[1..], c)
  }

  /** The inverse of Split: the parts with `sep` between each neighbouring pair. */
  function JoinWith(parts: seq<string>, sep: char): string
    requires |parts| >= 1
  {
    if |parts| == 1 then parts[0] else parts[0] + [sep] + JoinWith(parts[1..], sep)
  }

  /**
   * strings.Split(s, string(sep)): the maximal `sep`-free pieces of `s`, in
   * order. There is always at least one piece; "" splits into [""].
   */
  function Split(s: string, sep: char): (parts: seq<string>)
    ensures |parts| >= 1
    ensures forall i :: 0 <= i < |parts| ==> sep !in parts[i]
    ensures JoinWith(parts, sep) == s
    ensures |parts| >= 2 <==> sep in s
    decreases |s|
  {
    if sep !in s then [s]
    else
      var i := IndexOf(s, sep);
      assert s == s[..i] + [sep] + s[i + 1..];
      [s[..i]] + Split(s[i + 1..], sep)
  }

  /** The first piece of a split is everything before the first separator. */
  lemma FirstPiece(s: string, sep: char)
    ensures Split(s, sep)[0] == if sep in s then s[..IndexOf(s, sep)] else s
  {
  }

  /** Two separator-free pieces joined by one separator split back into those two. */
  lemma SplitPair(a: string, b: string, sep: char)
    requires sep !in a && sep !in b
    ensures Split(a + [sep] + b, sep) == [a, b]
  {
    var parts := [a, b];
    assert parts[1..] == [b];
    assert JoinWith(parts, sep) == a + [sep] + b;
    SplitJoin(parts, sep);
  }

  /** The first separator of `a + [sep] + b` sits right after `a` when `a` holds none. */
  lemma {:induction false} IndexOfPrefix(a: string, b: string, sep: char)
    requires sep !in a
    ensures sep in a + [sep] + b && IndexOf(a + [sep] + b, sep) == |a|
    decreases |a|
  {
    var s := a + [sep] + b;
    assert s[|a|] == sep;
    if a != [] {
      assert s[1..] == a[1..] + [sep] + b;
      IndexOfPrefix(a[1..], b, sep);
    }
  }

  /** Splitting at a first separator right after `a` yields `a` and then the pieces of the rest. */
  lemma SplitCons(a: string, b: string, sep: char)
    requires sep !in a
    ensures Split(a + [sep] + b, sep) == [a] + Split(b, sep)
  {
    var s := a + [sep] + b;
    IndexOfPrefix(a, b, sep);
    assert s[..|a|] == a;
    assert s[|a| + 1..] == b;
  }

  /** Split undoes JoinWith when no part holds the separator. */
  lemma {:induction false} SplitJoin(parts: seq<string>, sep: char)
    requires |parts| >= 1
    requires forall i :: 0 <= i < |parts| ==> sep !in parts[i]
    ensures Split(JoinWith(parts, sep), sep) == parts
  {
    if |parts| > 1 {
      assert sep !in parts[0];
      SplitCons(parts[0], JoinWith(parts[1..], sep), sep);
      SplitJoin(parts[1..], sep);
      assert parts == [parts[0]] + parts[1..];
    }
  }
}
