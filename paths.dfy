/**
 * The path/filepath functions efm-langserver calls, for cleaned, slash-separated paths
 * on a non-Windows system; file URIs; and a directory tree standing in for os.ReadDir.
 */
module Paths {
  import opened Wrappers
  import opened Text

  /** filepath.IsAbs */
  predicate IsAbs(p: string) {
    |p| > 0 && p[0] == '/'
  }

  /** The index of the last '/' in p, or -1 when there is none. */
  function LastSlash(p: string): (i: int)
    ensures -1 <= i < |p|
    ensures i >= 0 ==> p[i] == '/'
    ensures forall j :: i < j < |p| ==> p[j] != '/'
    decreases |p|
  {
    if |p| == 0 then -1
    else if p[|p| - 1] == '/' then |p| - 1
    else LastSlash(p[..|p| - 1])
  }

  /** filepath.Dir on a cleaned path: what precedes the last '/', "/" for a top-level entry, "." without any '/'. */
  function Dir(p: string): string {
    var i := LastSlash(p);
    if i < 0 then "." else if i == 0 then "/" else p[..i]
  }

  /** How far a path is from "." and "/", the two paths Dir leaves unchanged. */
  function Height(p: string): nat {
    if p == "." || p == "/" then 0 else |p| + 2
  }

  /** Dir leaves exactly "." and "/" unchanged and brings every other path closer to them. */
  lemma DirDescends(p: string)
    ensures Dir(p) == p <==> (p == "." || p == "/")
    ensures Dir(p) != p ==> Height(Dir(p)) < Height(p)
  {
    var i := LastSlash(p);
    if i > 0 {
      assert |p[..i]| < |p|;
    }
  }

  /** Dir applied k times. */
  function Ancestor(p: string, k: nat): string {
    if k == 0 then p else Dir(Ancestor(p, k - 1))
  }

  /** Going up one level first and then k levels is going up k+1 levels. */
  lemma {:induction false} AncestorShift(p: string, k: nat)
    ensures Ancestor(Dir(p), k) == Ancestor(p, k + 1)
    decreases k
  {
    if k > 0 {
      AncestorShift(p, k - 1);
    }
  }

  /** filepath.Ext: the suffix of the final element that starts at its last '.', or "". */
  function Ext(p: string): string
    decreases |p|
  {
    if |p| == 0 || p[|p| - 1] == '/' then ""
    else if p[|p| - 1] == '.' then "."
    else
      var e := Ext(p[..|p| - 1]);
      if e == "" then "" else e + [p[|p| - 1]]
  }

  /** filepath.Join of two elements, without the cleaning step. */
  function Join(a: string, b: string): string {
    if a == "" then b
    else if b == "" then a
    else if HasSuffix(a, "/") then a + b
    else a + "/" + b
  }

  /** filepath.Abs: an absolute path stays as it is; a relative one is joined to the working directory. */
  function Abs(cwd: string, p: string): string {
    if IsAbs(p) then p else Join(cwd, p)
  }

  const FileScheme: string := "file://"

  /**
   * fromURI: the path of a file URI. Only "file://" followed by an absolute path, and the
   * bare "file:" (empty path), are accepted.
   */
  function FromURI(uri: string): Result<string, string> {
    if HasPrefix(uri, FileScheme) && IsAbs(uri[|FileScheme|..]) then Success(uri[|FileScheme|..])
    else if uri == "file:" then Success("")
    else Failure("only file URIs are supported")
  }

  /** toURI: the file URI of a path; the empty path gives "file:". */
  function ToURI(path: string): string {
    if path == "" then "file:" else FileScheme + path
  }

  /** Converting an absolute (or empty) path to a URI and back gives the path. */
  lemma URIRoundTrip(path: string)
    requires IsAbs(path) || path == ""
    ensures FromURI(ToURI(path)) == Success(path)
  {
    if path != "" {
      assert ToURI(path)[|FileScheme|..] == path;
    }
  }

  /** Distinct paths have distinct URIs. */
  lemma ToURIInjective(p: string, q: string)
    requires ToURI(p) == ToURI(q)
    ensures p == q
  {
    if p != "" && q != "" {
      assert p == ToURI(p)[|FileScheme|..];
    }
  }

  /** One entry of a directory listing. */
  datatype DirEntry = DirEntry(name: string, isDir: bool)

  /** os.ReadDir per directory; a directory missing from the map cannot be read and lists nothing. */
  type FileSystem = map<string, seq<DirEntry>>

  function ReadDir(fs: FileSystem, dir: string): seq<DirEntry> {
    if dir in fs then fs[dir] else []
  }

  /**
   * filepath.Match without character classes or escapes: '*' matches any run of
   * non-'/' characters and '?' matches one non-'/' character.
   */
  predicate Match(pattern: string, name: string)
    decreases |pattern| + |name|
  {
    if |pattern| == 0 then |name| == 0
    else if pattern[0] == '*' then
      Match(pattern[1..], name) || (|name| > 0 && name[0] != '/' && Match(pattern, name[1..]))
    else
      |name| > 0 && (if pattern[0] == '?' then name[0] != '/' else pattern[0] == name[0])
      && Match(pattern[1..], name[1..])
  }

  /**
   * A pattern filepath.Match reads as plain text: no wildcard, no character class and no
   * escape.
   */
  predicate Literal(pattern: string) {
    '*' !in pattern && '?' !in pattern && '[' !in pattern && '\\' !in pattern
  }

  /** A pattern without wildcards matches exactly itself. */
  lemma {:induction false} LiteralMatch(pattern: string, name: string)
    requires Literal(pattern)
    ensures Match(pattern, name) <==> name == pattern
    decreases |pattern|
  {
    if |pattern| > 0 && |name| > 0 {
      LiteralMatch(pattern[1..], name[1..]);
      assert name == [name[0]] + name[1..];
      assert pattern == [pattern[0]] + pattern[1..];
    }
  }
}
