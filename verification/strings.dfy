/** Stand-ins for the JavaScript and Node.js string helpers the builders
    call: `String.prototype.trim`, `String.prototype.toLowerCase`, and the
    POSIX `path.basename`, `path.dirname` and `path.parse(p).name`.

    They are deliberately small: trimming knows space, tab, CR and LF;
    lower-casing knows ASCII letters; paths use '/' and are assumed to carry
    no trailing separator (reflection source file names never do). */
module Strings {

  predicate IsSpace(c: char) {
    c == ' ' || c == '\t' || c == '\n' || c == '\r'
  }

  /** True when `s` neither starts nor ends with white space. */
  predicate IsTrimmed(s: string) {
    |s| == 0 || (!IsSpace(s[0]) && !IsSpace(s[|s| - 1]))
  }

  function TrimStart(s: string): (r: string)
    ensures |r| <= |s| && r == s[|s| - |r|..]
    ensures |r| > 0 ==> !IsSpace(r[0])
    ensures forall k :: 0 <= k < |s| - |r| ==> IsSpace(s[k])
    decreases |s|
  {
    if |s| > 0 && IsSpace(s[0]) then TrimStart(s[1..]) else s
  }

  function TrimEnd(s: string): (r: string)
    ensures |r| <= |s| && r == s[..|r|]
    ensures |r| > 0 ==> !IsSpace(r[|r| - 1])
    ensures forall k :: |r| <= k < |s| ==> IsSpace(s[k])
    decreases |s|
  {
    if |s| > 0 && IsSpace(s[|s| - 1]) then TrimEnd(s[..|s| - 1]) else s
  }

  /** `s.trim()`: the result is the infix of `s` left after dropping the
      white space at both ends; it carries no surrounding white space, and a
      string that has none is returned unchanged. */
  function Trim(s: string): (r: string)
    ensures |r| <= |s|
    ensures exists i, j :: 0 <= i <= j <= |s| && r == s[i..j]
                           && (forall k :: 0 <= k < i ==> IsSpace(s[k]))
                           && (forall k :: j <= k < |s| ==> IsSpace(s[k]))
    ensures IsTrimmed(r)
    ensures IsTrimmed(s) ==> r == s
  {
    var t := TrimStart(s);
    var r := TrimEnd(t);
    assert |r| > 0 ==> r[0] == t[0];
    var i := |s| - |t|;
    assert r == s[i..i + |r|];
    assert forall k :: i + |r| <= k < |s| ==> s[k] == t[k - i];
    r
  }

  function LowerChar(c: char): char {
    if 'A' <= c <= 'Z' then (c as int + 32) as char else c
  }

  /** `s.toLowerCase()` on ASCII letters. */
  function Lower(s: string): (r: string)
    ensures |r| == |s|
    ensures forall i :: 0 <= i < |s| ==> r[i] == LowerChar(s[i])
  {
    seq(|s|, i requires 0 <= i < |s| => LowerChar(s[i]))
  }

  /** Lower-casing twice is lower-casing once. */
  lemma LowerIdempotent(s: string)
    ensures Lower(Lower(s)) == Lower(s)
  {
    assert forall i :: 0 <= i < |s| ==> Lower(Lower(s))[i] == Lower(s)[i];
  }

  /** True when the character `c` does not occur in `s`. */
  predicate Lacks(s: string, c: char) {
    forall i :: 0 <= i < |s| ==> s[i] != c
  }

  /** The index of the last occurrence of `c` in `s`, or -1. */
  function LastIndexOf(s: string, c: char): (k: int)
    ensures -1 <= k < |s|
    ensures k >= 0 ==> s[k] == c
    ensures forall i :: k < i < |s| ==> s[i] != c
    decreases |s|
  {
    if |s| == 0 then -1
    else if s[|s| - 1] == c then |s| - 1
    else LastIndexOf(s[..|s| - 1], c)
  }

  /** `path.basename(p)`: the part after the last '/'. */
  function Basename(p: string): (r: string)
    ensures Lacks(r, '/')
    ensures |r| <= |p| && r == p[|p| - |r|..]
    ensures Lacks(p, '/') ==> r == p
  {
    p[LastIndexOf(p, '/') + 1..]
  }

  /** `path.dirname(p)`: the part before the last '/', "/" when that slash
      is the first character, "." when there is none. */
  function Dirname(p: string): (r: string)
    ensures Lacks(p, '/') ==> r == "."
  {
    var k := LastIndexOf(p, '/');
    if k < 0 then "." else if k == 0 then "/" else p[..k]
  }

  /** A path with a separator after its first character is its directory,
      a '/', and its base name. */
  lemma DirnameBasenameJoin(p: string)
    requires LastIndexOf(p, '/') > 0
    ensures Dirname(p) + "/" + Basename(p) == p
  {
    var k := LastIndexOf(p, '/');
    assert p == p[..k] + [p[k]] + p[k + 1..];
  }

  /** `path.parse(p).name`: the base name without its extension; a leading
      dot does not start an extension. */
  function Stem(p: string): (r: string)
    ensures Lacks(r, '/')
    ensures |r| <= |Basename(p)| && r == Basename(p)[..|r|]
    ensures |r| < |Basename(p)| ==> Basename(p)[|r|] == '.'
    ensures Lacks(Basename(p), '.') ==> r == Basename(p)
  {
    var base := Basename(p);
    var e := LastIndexOf(base, '.');
    if e > 0 then base[..e] else base
  }

  /** The last `c` of `a + [c] + b` is the one between them when `b` has
      none. */
  lemma LastIndexOfJoin(a: string, c: char, b: string)
    requires Lacks(b, c)
    ensures LastIndexOf(a + [c] + b, c) == |a|
  {
    var s := a + [c] + b;
    var k := LastIndexOf(s, c);
    assert s[|a|] == c;
  }

  /** Joining a non-empty directory and a file name with '/' and splitting
      again gives both back. */
  lemma SplitJoinedPath(dir: string, file: string)
    requires |dir| > 0 && Lacks(file, '/')
    ensures Basename(dir + "/" + file) == file
    ensures Dirname(dir + "/" + file) == dir
  {
    LastIndexOfJoin(dir, '/', file);
    assert (dir + "/" + file)[..|dir|] == dir;
  }

  /** The stem of `dir/stem.ext`, for an extension without dots and a
      non-empty stem, is `stem`. */
  lemma StemOfJoinedPath(dir: string, stem: string, ext: string)
    requires |dir| > 0 && |stem| > 0
    requires Lacks(stem, '/') && Lacks(ext, '/') && Lacks(ext, '.')
    ensures Basename(dir + "/" + stem + "." + ext) == stem + "." + ext
    ensures Stem(dir + "/" + stem + "." + ext) == stem
  {
    var file := stem + "." + ext;
    assert Lacks(file, '/') by {
      forall i | 0 <= i < |file|
        ensures file[i] != '/'
      {
        if i < |stem| { assert file[i] == stem[i]; }
        else if i > |stem| { assert file[i] == ext[i - |stem| - 1]; }
      }
    }
    assert dir + "/" + stem + "." + ext == dir + "/" + file;
    SplitJoinedPath(dir, file);
    LastIndexOfJoin(stem, '.', ext);
    assert file[..|stem|] == stem;
  }
}
