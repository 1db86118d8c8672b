/**
 * core/handler.go: command templating, the root-marker walk, word extraction, the
 * document store and configuration of LangHandler, and the lint scheduler state that
 * core/linting.go keeps beside it (the debounce timer and the package-level running map).
 */
module CoreHandler {
  import opened Wrappers
  import opened Text
  import opened Paths
  import opened Types

  // ------------------------------------------------------------------ bracket escaping

  /** Per-character replacement of c by rep. */
  function ReplaceChar(s: string, c: char, rep: string): string
    decreases |s|
  {
    if |s| == 0 then "" else (if s[0] == c then rep else [s[0]]) + ReplaceChar(s[1..], c, rep)
  }

  lemma {:induction false} ReplaceAllOneChar(s: string, c: char, rep: string)
    ensures ReplaceAll(s, [c], rep) == ReplaceChar(s, c, rep)
    decreases |s|
  {
    if |s| > 0 {
      ReplaceAllOneChar(s[1..], c, rep);
      assert HasPrefix(s, [c]) <==> s[0] == c;
      assert s[|[c]|..] == s[1..];
    }
  }

  lemma {:induction false} ReplaceCharConcat(x: string, y: string, c: char, rep: string)
    ensures ReplaceChar(x + y, c, rep) == ReplaceChar(x, c, rep) + ReplaceChar(y, c, rep)
    decreases |x|
  {
    if |x| == 0 {
      assert x + y == y;
    } else {
      assert (x + y)[1..] == x[1..] + y;
      ReplaceCharConcat(x[1..], y, c, rep);
    }
  }

  /** The escaped form of one character. */
  function EscapeChar(c: char): string {
    if c == '(' then "\\(" else if c == ')' then "\\)" else [c]
  }

  /** Bracket escaping read one character at a time. */
  function EscapeEach(s: string): string
    decreases |s|
  {
    if |s| == 0 then "" else EscapeChar(s[0]) + EscapeEach(s[1..])
  }

  /** escapeBrackets: replace every '(' by "\(", then every ')' by "\)". */
  function EscapeBrackets(path: string): string {
    ReplaceAll(ReplaceAll(path, "(", "\\("), ")", "\\)")
  }

  function BracketCount(s: string): nat
    decreases |s|
  {
    if |s| == 0 then 0 else (if s[0] == '(' || s[0] == ')' then 1 else 0) + BracketCount(s[1..])
  }

  /** Drops the backslash in front of each escaped bracket. */
  function Unescape(s: string): string
    decreases |s|
  {
    if |s| >= 2 && s[0] == '\\' && (s[1] == '(' || s[1] == ')') then [s[1]] + Unescape(s[2..])
    else if |s| == 0 then ""
    else [s[0]] + Unescape(s[1..])
  }

  lemma {:induction false} EscapeEachAsReplaceChar(s: string)
    ensures EscapeEach(s) == ReplaceChar(ReplaceChar(s, '(', "\\("), ')', "\\)")
    decreases |s|
  {
    if |s| > 0 {
      EscapeEachAsReplaceChar(s[1..]);
      var head := if s[0] == '(' then "\\(" else [s[0]];
      assert ReplaceChar(s, '(', "\\(") == head + ReplaceChar(s[1..], '(', "\\(");
      ReplaceCharConcat(head, ReplaceChar(s[1..], '(', "\\("), ')', "\\)");
      if s[0] == '(' {
        assert ReplaceChar("\\(", ')', "\\)") == "\\(" by {
          assert "\\("[1..] == "(";
          assert "("[1..] == "";
        }
      } else {
        assert ReplaceChar([s[0]], ')', "\\)") == EscapeChar(s[0]) by {
          assert [s[0]][1..] == "";
        }
      }
    }
  }

  lemma {:induction false} EscapeEachLength(s: string)
    ensures |EscapeEach(s)| == |s| + BracketCount(s)
    decreases |s|
  {
    if |s| > 0 {
      EscapeEachLength(s[1..]);
    }
  }

  lemma EscapeEachHead(s: string)
    requires |EscapeEach(s)| > 0
    ensures EscapeEach(s)[0] != '(' && EscapeEach(s)[0] != ')'
  {
  }

  lemma {:induction false} UnescapeEscapeEach(s: string)
    ensures Unescape(EscapeEach(s)) == s
    decreases |s|
  {
    if |s| > 0 {
      UnescapeEscapeEach(s[1..]);
      var rest := EscapeEach(s[1..]);
      if s[0] == '(' || s[0] == ')' {
        assert EscapeEach(s) == ['\\', s[0]] + rest;
        assert (['\\', s[0]] + rest)[2..] == rest;
      } else {
        assert EscapeEach(s) == [s[0]] + rest;
        assert ([s[0]] + rest)[1..] == rest;
        if s[0] == '\\' && |rest| > 0 {
          EscapeEachHead(s[1..]);
        }
      }
      assert s == [s[0]] + s[1..];
    }
  }

  /**
   * escapeBrackets escapes each bracket and changes nothing else: it agrees with the
   * per-character escape, adds one character per bracket, and Unescape undoes it.
   */
  lemma EscapeBracketsSpec(path: string)
    ensures EscapeBrackets(path) == EscapeEach(path)
    ensures |EscapeBrackets(path)| == |path| + BracketCount(path)
    ensures Unescape(EscapeBrackets(path)) == path
  {
    ReplaceAllOneChar(path, '(', "\\(");
    ReplaceAllOneChar(ReplaceChar(path, '(', "\\("), ')', "\\)");
    EscapeEachAsReplaceChar(path);
    EscapeEachLength(path);
    UnescapeEscapeEach(path);
  }

  lemma {:induction false} EscapeEachKeeps(s: string, c: char)
    requires c !in s && c != '\\' && c != '(' && c != ')'
    ensures c !in EscapeEach(s)
    decreases |s|
  {
    if |s| > 0 {
      EscapeEachKeeps(s[1..], c);
    }
  }

  // ------------------------------------------------------------------ command templating

  /** replaceCommandInputFilename: fill ${INPUT}, ${FILEEXT}, ${FILENAME} and ${ROOT}, in that order. */
  function ReplaceCommandInputFilename(command: string, fname: string, rootPath: string): string {
    var ext := TrimPrefix(Ext(fname), ".");
    var c1 := ReplaceAll(command, "${INPUT}", EscapeBrackets(fname));
    var c2 := ReplaceAll(c1, "${FILEEXT}", ext);
    var c3 := ReplaceAll(c2, "${FILENAME}", EscapeBrackets(fname));
    ReplaceAll(c3, "${ROOT}", EscapeBrackets(rootPath))
  }

  /** A command without any of the four placeholders is returned unchanged. */
  lemma TemplateWithoutPlaceholders(command: string, fname: string, rootPath: string)
    requires !Contains(command, "${INPUT}") && !Contains(command, "${FILEEXT}")
    requires !Contains(command, "${FILENAME}") && !Contains(command, "${ROOT}")
    ensures ReplaceCommandInputFilename(command, fname, rootPath) == command
  {
    ReplaceAllAbsent(command, "${INPUT}", EscapeBrackets(fname));
    ReplaceAllAbsent(command, "${FILEEXT}", TrimPrefix(Ext(fname), "."));
    ReplaceAllAbsent(command, "${FILENAME}", EscapeBrackets(fname));
    ReplaceAllAbsent(command, "${ROOT}", EscapeBrackets(rootPath));
  }

  /**
   * The " ${INPUT}" the linter appends to a command (when no '$' occurs in the command
   * or the file name) becomes a space and the bracket-escaped file name.
   */
  lemma TemplateAppendedInput(command: string, fname: string, rootPath: string)
    requires '$' !in command && '$' !in fname
    ensures ReplaceCommandInputFilename(command + " ${INPUT}", fname, rootPath) == command + " " + EscapeBrackets(fname)
  {
    var e := EscapeBrackets(fname);
    EscapeBracketsSpec(fname);
    EscapeEachKeeps(fname, '$');
    assert command + " ${INPUT}" == (command + " ") + "${INPUT}";
    ReplaceAllSkip(command + " ", "${INPUT}", "${INPUT}", e);
    assert ReplaceAll("${INPUT}", "${INPUT}", e) == e by {
      assert HasPrefix("${INPUT}", "${INPUT}");
      assert "${INPUT}"[|"${INPUT}"|..] == "";
    }
    var c1 := command + " " + e;
    assert '$' !in c1;
    NotContainsWithoutFirst(c1, "${FILEEXT}");
    ReplaceAllAbsent(c1, "${FILEEXT}", TrimPrefix(Ext(fname), "."));
    NotContainsWithoutFirst(c1, "${FILENAME}");
    ReplaceAllAbsent(c1, "${FILENAME}", e);
    NotContainsWithoutFirst(c1, "${ROOT}");
    ReplaceAllAbsent(c1, "${ROOT}", EscapeBrackets(rootPath));
  }

  /** isFilename: the names linters print for standard input. */
  predicate IsFilename(s: string) {
    s == "stdin" || s == "-" || s == "<text>" || s == "<stdin>"
  }

  /** itoaPtrIfNotZero: no code for 0, otherwise the decimal text of n. */
  function ItoaPtrIfNotZero(n: int): (r: Option<string>)
    ensures r.None? <==> n == 0
  {
    if n == 0 then None else Some(Itoa(n))
  }

  /** A code is present exactly for a non-zero number, and its text reads back as that number. */
  lemma ItoaPtrIfNotZeroDecodes(n: int)
    requires InInt64(n)
    ensures ItoaPtrIfNotZero(n).None? <==> n == 0
    ensures ItoaPtrIfNotZero(n).Some? ==> Atoi(ItoaPtrIfNotZero(n).value) == Some(n)
  {
    if n != 0 {
      AtoiItoa(n);
    }
  }

  // ------------------------------------------------------------------ root markers

  /** A marker ending in '/' names a directory (trailing slashes trimmed); any other marker names a file. */
  predicate MarkerMatches(marker: string, e: DirEntry) {
    if HasSuffix(marker, "/") then e.isDir && Match(TrimRight(marker, "/"), e.name)
    else !e.isDir && Match(marker, e.name)
  }

  /** Some entry of dir matches some marker. */
  predicate DirHasMarker(fs: FileSystem, dir: string, markers: seq<string>) {
    exists j, m :: 0 <= j < |ReadDir(fs, dir)| && 0 <= m < |markers| && MarkerMatches(markers[m], ReadDir(fs, dir)[j])
  }

  /** The first directory on the walk up from dir that holds a marker, or "". */
  function MarkedAncestor(fs: FileSystem, dir: string, markers: seq<string>): string
    decreases Height(dir)
  {
    if DirHasMarker(fs, dir, markers) then dir
    else if Dir(dir) == dir then ""
    else
      DirDescends(dir);
      MarkedAncestor(fs, Dir(dir), markers)
  }

  /** What matchRootPath returns for a file: the marked ancestor of its directory. */
  function MatchRoot(fs: FileSystem, fname: string, markers: seq<string>): string {
    MarkedAncestor(fs, Dir(fname), markers)
  }

  /** Some directory on the walk up from dir holds a marker. */
  ghost predicate MarkerAbove(fs: FileSystem, dir: string, markers: seq<string>) {
    exists k: nat :: DirHasMarker(fs, Ancestor(dir, k), markers)
  }

  lemma {:induction false} AncestorFixed(dir: string, k: nat)
    requires Dir(dir) == dir
    ensures Ancestor(dir, k) == dir
    decreases k
  {
    if k > 0 {
      AncestorFixed(dir, k - 1);
    }
  }

  /**
   * A non-empty result is a directory on the walk that holds a marker, and no directory
   * below it on the walk holds one: the deepest match.
   */
  lemma {:induction false} MarkedAncestorDeepest(fs: FileSystem, dir: string, markers: seq<string>) returns (k: nat)
    requires MarkedAncestor(fs, dir, markers) != ""
    ensures MarkedAncestor(fs, dir, markers) == Ancestor(dir, k)
    ensures DirHasMarker(fs, Ancestor(dir, k), markers)
    ensures forall i :: 0 <= i < k ==> !DirHasMarker(fs, Ancestor(dir, i), markers)
    decreases Height(dir)
  {
    if DirHasMarker(fs, dir, markers) {
      k := 0;
    } else {
      DirDescends(dir);
      var k' := MarkedAncestorDeepest(fs, Dir(dir), markers);
      k := k' + 1;
      AncestorShift(dir, k');
      forall i | 0 <= i < k
        ensures !DirHasMarker(fs, Ancestor(dir, i), markers)
      {
        if i > 0 {
          AncestorShift(dir, i - 1);
        }
      }
    }
  }

  /** If any directory on the walk holds a marker, the walk finds one. */
  lemma {:induction false} MarkedAncestorComplete(fs: FileSystem, dir: string, markers: seq<string>, k: nat)
    requires dir != "" && DirHasMarker(fs, Ancestor(dir, k), markers)
    ensures MarkedAncestor(fs, dir, markers) != ""
    decreases k
  {
    if !DirHasMarker(fs, dir, markers) {
      if Dir(dir) == dir {
        AncestorFixed(dir, k);
        assert false;
      }
      DirDescends(dir);
      AncestorShift(dir, k - 1);
      MarkedAncestorComplete(fs, Dir(dir), markers, k - 1);
    }
  }

  /** matchRootPath finds a marked directory exactly when one exists on the walk, and then the deepest. */
  lemma MatchRootSpec(fs: FileSystem, fname: string, markers: seq<string>)
    ensures MatchRoot(fs, fname, markers) != "" <==> MarkerAbove(fs, Dir(fname), markers)
    ensures MatchRoot(fs, fname, markers) != "" ==>
      exists k: nat :: MatchRoot(fs, fname, markers) == Ancestor(Dir(fname), k)
        && DirHasMarker(fs, Ancestor(Dir(fname), k), markers)
        && forall i :: 0 <= i < k ==> !DirHasMarker(fs, Ancestor(Dir(fname), i), markers)
  {
    var start := Dir(fname);
    if MatchRoot(fs, fname, markers) != "" {
      var k := MarkedAncestorDeepest(fs, start, markers);
      assert DirHasMarker(fs, Ancestor(start, k), markers);
    }
    if MarkerAbove(fs, start, markers) {
      var k: nat :| DirHasMarker(fs, Ancestor(start, k), markers);
      MarkedAncestorComplete(fs, start, markers, k);
    }
  }

  /** matchRootPath: walk up from the file's directory until Dir no longer changes it. */
  method MatchRootPath(fs: FileSystem, fname: string, markers: seq<string>) returns (root: string)
    ensures root == MatchRoot(fs, fname, markers)
  {
    var dir := Dir(fname);
    var prev := "";
    while dir != prev
      invariant dir != ""
      invariant MatchRoot(fs, fname, markers) == MarkedAncestor(fs, dir, markers)
      invariant prev != "" ==> dir == Dir(prev) && !DirHasMarker(fs, prev, markers)
      decreases Height(dir) + (if dir == prev then 0 else 1)
    {
      var files := ReadDir(fs, dir);
      var e := 0;
      while e < |files|
        invariant 0 <= e <= |files|
        invariant forall j, m :: 0 <= j < e && 0 <= m < |markers| ==> !MarkerMatches(markers[m], files[j])
      {
        var m := 0;
        while m < |markers|
          invariant 0 <= m <= |markers|
          invariant forall k :: 0 <= k < m ==> !MarkerMatches(markers[k], files[e])
        {
          var marker := markers[m];
          if HasSuffix(marker, "/") {
            if files[e].isDir {
              marker := TrimRight(marker, "/");
              if Match(marker, files[e].name) {
                assert MarkerMatches(markers[m], files[e]);
                return dir;
              }
            }
          } else {
            if !files[e].isDir && Match(marker, files[e].name) {
              assert MarkerMatches(markers[m], files[e]);
              return dir;
            }
          }
          m := m + 1;
        }
        e := e + 1;
      }
      DirDescends(dir);
      prev := dir;
      dir := Dir(dir);
    }
    DirDescends(dir);
    return "";
  }

  /**
   * findRootPath, given the handler's global root markers and root path: the tool's
   * marker match, else the global marker match, else the root path.
   */
  function FindRootPath(fs: FileSystem, fname: string, lang: Language, globalMarkers: seq<string>, rootPath: string): string {
    var byTool := MatchRoot(fs, fname, lang.rootMarkers);
    if byTool != "" then byTool
    else
      var byGlobal := MatchRoot(fs, fname, globalMarkers);
      if byGlobal != "" then byGlobal else rootPath
  }

  /**
   * The root comes from the tool's markers whenever one is found above the file, from
   * the global markers only when no tool marker is, and is the root path otherwise.
   */
  lemma RootPathPrecedence(fs: FileSystem, fname: string, lang: Language, globalMarkers: seq<string>, rootPath: string)
    ensures MarkerAbove(fs, Dir(fname), lang.rootMarkers) ==>
      FindRootPath(fs, fname, lang, globalMarkers, rootPath) == MatchRoot(fs, fname, lang.rootMarkers)
      && DirHasMarker(fs, FindRootPath(fs, fname, lang, globalMarkers, rootPath), lang.rootMarkers)
    ensures !MarkerAbove(fs, Dir(fname), lang.rootMarkers) && MarkerAbove(fs, Dir(fname), globalMarkers) ==>
      FindRootPath(fs, fname, lang, globalMarkers, rootPath) == MatchRoot(fs, fname, globalMarkers)
      && DirHasMarker(fs, FindRootPath(fs, fname, lang, globalMarkers, rootPath), globalMarkers)
    ensures !MarkerAbove(fs, Dir(fname), lang.rootMarkers) && !MarkerAbove(fs, Dir(fname), globalMarkers) ==>
      FindRootPath(fs, fname, lang, globalMarkers, rootPath) == rootPath
  {
    MatchRootSpec(fs, fname, lang.rootMarkers);
    MatchRootSpec(fs, fname, globalMarkers);
    if MarkerAbove(fs, Dir(fname), lang.rootMarkers) {
      var k := MarkedAncestorDeepest(fs, Dir(fname), lang.rootMarkers);
    } else if MarkerAbove(fs, Dir(fname), globalMarkers) {
      var k := MarkedAncestorDeepest(fs, Dir(fname), globalMarkers);
    }
  }

  // ------------------------------------------------------------------ word at a position

  /** A stored document. */
  datatype FileRef = FileRef(languageID: string, text: string, version: int)

  /** unicodeclass.Invalid, the class wordAt starts from. */
  const Invalid: int := 0

  /** The last class boundary at or before i: 0, or a position whose class differs from its predecessor's. */
  function WordStart(chars: string, cls: char -> int, i: nat): (p: nat)
    requires i < |chars|
    ensures p <= i
    decreases i
  {
    if i == 0 || cls(chars[i]) != cls(chars[i - 1]) then i else WordStart(chars, cls, i - 1)
  }

  /** WordStart is a boundary, and no boundary lies after it up to i. */
  lemma {:induction false} WordStartSpec(chars: string, cls: char -> int, i: nat)
    requires i < |chars|
    ensures var p := WordStart(chars, cls, i);
      (p == 0 || cls(chars[p]) != cls(chars[p - 1]))
      && forall j :: p < j <= i ==> cls(chars[j]) == cls(chars[j - 1])
    decreases i
  {
    if !(i == 0 || cls(chars[i]) != cls(chars[i - 1])) {
      WordStartSpec(chars, cls, i - 1);
    }
  }

  /** The first position at or after i whose class differs from c0 and that is not '_', or the line length. */
  function WordEnd(chars: string, cls: char -> int, c0: int, i: nat): (q: nat)
    requires i <= |chars|
    ensures i <= q <= |chars|
    decreases |chars| - i
  {
    if i == |chars| then i
    else if cls(chars[i]) != c0 && chars[i] != '_' then i
    else WordEnd(chars, cls, c0, i + 1)
  }

  /** WordEnd stops at a non-underscore change of class and passes over nothing else. */
  lemma {:induction false} WordEndSpec(chars: string, cls: char -> int, c0: int, i: nat)
    requires i <= |chars|
    ensures var q := WordEnd(chars, cls, c0, i);
      (q < |chars| ==> cls(chars[q]) != c0 && chars[q] != '_')
      && forall j :: i <= j < q ==> cls(chars[j]) == c0 || chars[j] == '_'
    decreases |chars| - i
  {
    if i < |chars| && !(cls(chars[i]) != c0 && chars[i] != '_') {
      WordEndSpec(chars, cls, c0, i + 1);
    }
  }

  /**
   * The word at a position: on the position's line, from the last class boundary at or
   * before the character to the first later change of class that is not an underscore;
   * "" when the line or the character is out of range.
   */
  function WordAtSpec(text: string, pos: Position, cls: char -> int): string {
    var lines := Split(text, '\n');
    if pos.line < 0 || pos.line >= |lines| then ""
    else WordInLine(lines[pos.line], pos.character, cls)
  }

  /** The word of one line at character c, as WordAtSpec describes it. */
  function WordInLine(chars: string, c: int, cls: char -> int): string {
    if c < 0 || c > |chars| || |chars| == 0 then ""
    else if c == |chars| then chars[WordStart(chars, cls, |chars| - 1)..]
    else chars[WordStart(chars, cls, c)..WordEnd(chars, cls, cls(chars[c]), c + 1)]
  }

  /** fileRef.wordAt: one scan of the line that tracks the current class run. */
  method WordAt(f: FileRef, pos: Position, cls: char -> int) returns (word: string)
    ensures word == WordAtSpec(f.text, pos, cls)
  {
    var lines := Split(f.text, '\n');
    if pos.line < 0 || pos.line >= |lines| {
      return "";
    }
    word := ScanWord(lines[pos.line], pos.character, cls);
  }

  /** The scan of wordAt over one line. */
  method ScanWord(chars: string, c: int, cls: char -> int) returns (word: string)
    ensures word == WordInLine(chars, c, cls)
  {
    if c < 0 || c > |chars| {
      return "";
    }
    var prevPos := 0;
    var currPos := -1;
    var prevCls := Invalid;
    var i := 0;
    while i < |chars|
      invariant 0 <= i <= |chars|
      invariant currPos == -1
      invariant i == 0 ==> prevPos == 0 && prevCls == Invalid
      invariant 0 < i <= c + 1 ==> prevPos == WordStart(chars, cls, i - 1) && prevCls == cls(chars[i - 1])
      invariant i > c + 1 ==>
                  prevPos == WordStart(chars, cls, c) && prevCls == cls(chars[c])
                  && WordEnd(chars, cls, cls(chars[c]), c + 1) == WordEnd(chars, cls, cls(chars[c]), i)
    {
      var currCls := cls(chars[i]);
      if currCls != prevCls {
        if i <= c {
          prevPos := i;
        } else {
          if chars[i] == '_' {
            i := i + 1;
            continue;
          }
          currPos := i;
          break;
        }
      }
      prevCls := currCls;
      i := i + 1;
    }
    if currPos == -1 {
      currPos := |chars|;
    }
    word := chars[prevPos..currPos];
  }

  /**
   * For a character inside the line, the word is chars[p..q] where p is the last class
   * boundary at or before the character (all of chars[p..character] shares its class) and
   * q is the first later position whose class differs and that is not '_' (or the line end).
   */
  lemma WordAtSpan(text: string, pos: Position, cls: char -> int)
    requires 0 <= pos.line < |Split(text, '\n')|
    requires 0 <= pos.character < |Split(text, '\n')[pos.line]|
    ensures var chars := Split(text, '\n')[pos.line];
      var c := pos.character;
      var p := WordStart(chars, cls, c);
      var q := WordEnd(chars, cls, cls(chars[c]), c + 1);
      && p <= c < q <= |chars|
      && WordAtSpec(text, pos, cls) == chars[p..q]
      && (p == 0 || cls(chars[p]) != cls(chars[p - 1]))
      && (forall j :: p <= j <= c ==> cls(chars[j]) == cls(chars[c]))
      && (q < |chars| ==> cls(chars[q]) != cls(chars[c]) && chars[q] != '_')
      && (forall j :: c < j < q ==> cls(chars[j]) == cls(chars[c]) || chars[j] == '_')
  {
    var chars := Split(text, '\n')[pos.line];
    var c := pos.character;
    var p := WordStart(chars, cls, c);
    WordStartSpec(chars, cls, c);
    WordEndSpec(chars, cls, cls(chars[c]), c + 1);
    forall j | p <= j <= c
      ensures cls(chars[j]) == cls(chars[c])
    {
      SameClassRun(chars, cls, p, j, c);
    }
  }

  lemma {:induction false} SameClassRun(chars: string, cls: char -> int, p: nat, j: nat, c: nat)
    requires p <= j <= c < |chars|
    requires forall i :: p < i <= c ==> cls(chars[i]) == cls(chars[i - 1])
    ensures cls(chars[j]) == cls(chars[c])
    decreases c - j
  {
    if j < c {
      SameClassRun(chars, cls, p, j + 1, c);
    }
  }

  // ------------------------------------------------------------------ the handler

  /** The lint timer's pending callback, with the URI and event it captured. */
  datatype PendingLint = PendingLint(uri: DocumentURI, event: EventType)

  /** A lint run started by the timer: its document, event and cancel handle. */
  datatype LintRun = LintRun(uri: DocumentURI, event: EventType, handle: nat)

  /** Some config among the first n has a format command. */
  predicate AnyFormatter(langs: seq<Language>, n: int) {
    exists i :: 0 <= i < n && i < |langs| && langs[i].formatCommand != ""
  }

  /** Some config among the first n has a format command that accepts a range. */
  predicate AnyRangeFormatter(langs: seq<Language>, n: int) {
    exists i :: 0 <= i < n && i < |langs| && langs[i].formatCommand != "" && langs[i].formatCanRange
  }

  /** A format command is configured for some language of the given keys. */
  predicate FormatterIn(configs: map<string, seq<Language>>, keys: set<string>) {
    exists k :: k in keys && k in configs && AnyFormatter(configs[k], |configs[k]|)
  }

  /** A range-capable format command is configured for some language of the given keys. */
  predicate RangeFormatterIn(configs: map<string, seq<Language>>, keys: set<string>) {
    exists k :: k in keys && k in configs && AnyRangeFormatter(configs[k], |configs[k]|)
  }

  lemma FormatterInAdd(configs: map<string, seq<Language>>, keys: set<string>, key: string)
    requires key in configs
    ensures FormatterIn(configs, keys + {key}) == (FormatterIn(configs, keys) || AnyFormatter(configs[key], |configs[key]|))
    ensures RangeFormatterIn(configs, keys + {key}) == (RangeFormatterIn(configs, keys) || AnyRangeFormatter(configs[key], |configs[key]|))
  {
  }

  /**
   * The capabilities Initialize announces: full sync; document formatting when the
   * option asks for it or any config has a format command; range formatting when the
   * option asks for it or a single config has a format command that can take a range.
   */
  function Capabilities(configs: map<string, seq<Language>>, opts: Option<InitializeOptions>): ServerCapabilities {
    ServerCapabilities(
      TDSKFull,
      (opts.Some? && opts.value.documentFormatting) || FormatterIn(configs, configs.Keys),
      (opts.Some? && opts.value.rangeFormatting) || RangeFormatterIn(configs, configs.Keys))
  }

  /** Initialize's scan of one language's configs, which stops at the first range-capable format command. */
  method ScanFormatters(langs: seq<Language>) returns (anyFormat: bool, anyRange: bool)
    ensures anyFormat == AnyFormatter(langs, |langs|)
    ensures anyRange == AnyRangeFormatter(langs, |langs|)
  {
    anyFormat, anyRange := false, false;
    var j := 0;
    while j < |langs|
      invariant 0 <= j <= |langs|
      invariant anyFormat == AnyFormatter(langs, j)
      invariant !anyRange && !AnyRangeFormatter(langs, j)
    {
      if langs[j].formatCommand != "" {
        anyFormat := true;
        if langs[j].formatCanRange {
          anyRange := true;
          assert AnyFormatter(langs, |langs|) && AnyRangeFormatter(langs, |langs|);
          return;
        }
      }
      j := j + 1;
    }
  }

  /** The option flags and format-command scan of Initialize, over every language's configs. */
  method FormatCapabilities(configs: map<string, seq<Language>>, opts: Option<InitializeOptions>) returns (caps: ServerCapabilities)
    ensures caps == Capabilities(configs, opts)
  {
    var hasFormatCommand := false;
    var hasRangeFormatCommand := false;
    if opts.Some? {
      hasFormatCommand := opts.value.documentFormatting;
      hasRangeFormatCommand := opts.value.rangeFormatting;
    }
    var optFormat := hasFormatCommand;
    var optRange := hasRangeFormatCommand;
    var pending := configs.Keys;
    ghost var done: set<string> := {};
    while pending != {}
      invariant pending <= configs.Keys && done == configs.Keys - pending
      invariant hasFormatCommand == (optFormat || FormatterIn(configs, done))
      invariant hasRangeFormatCommand == (optRange || RangeFormatterIn(configs, done))
      decreases |pending|
    {
      var key :| key in pending;
      var anyFormat, anyRange := ScanFormatters(configs[key]);
      hasFormatCommand := hasFormatCommand || anyFormat;
      hasRangeFormatCommand := hasRangeFormatCommand || anyRange;
      FormatterInAdd(configs, done, key);
      pending := pending - {key};
      done := done + {key};
    }
    caps := ServerCapabilities(TDSKFull, hasFormatCommand, hasRangeFormatCommand);
  }

  class LangHandler {
    var loglevel: int
    var configs: map<string, seq<Language>>
    var files: map<DocumentURI, FileRef>
    var lintDebounce: int
    var lintTimer: Option<PendingLint>
    var formatDebounce: int
    var formatTimer: bool
    var rootPath: string
    var rootMarkers: seq<string>
    /** Per languageID, the URIs a workspace linter last published diagnostics for. */
    var lastPublishedURIs: map<string, set<DocumentURI>>
    /** The package-level running map, with cancel functions as handle numbers. */
    var running: map<DocumentURI, nat>
    /** Handles whose cancel function has been called. */
    var cancelled: set<nat>
    var nextHandle: nat

    /** Every running handle is live and belongs to one URI only. */
    predicate Valid()
      reads this
    {
      (forall u :: u in running ==> running[u] < nextHandle && running[u] !in cancelled)
      && (forall u, v :: u in running && v in running && u != v ==> running[u] != running[v])
      && (forall h :: h in cancelled ==> h < nextHandle)
    }

    /** NewHandler: the configuration's languages and root markers, no documents, no timers. */
    constructor (config: Config)
      requires config.languages.Some? && config.rootMarkers.Some?
      ensures Valid()
      ensures loglevel == config.logLevel && configs == config.languages.value
      ensures lintDebounce == config.lintDebounce && formatDebounce == config.formatDebounce
      ensures rootMarkers == config.rootMarkers.value && rootPath == ""
      ensures files == map[] && lintTimer.None? && !formatTimer && lastPublishedURIs == map[]
      ensures running == map[] && cancelled == {}
    {
      loglevel := config.logLevel;
      configs := config.languages.value;
      files := map[];
      lintDebounce := config.lintDebounce;
      lintTimer := None;
      formatDebounce := config.formatDebounce;
      formatTimer := false;
      rootPath := "";
      rootMarkers := config.rootMarkers.value;
      lastPublishedURIs := map[];
      running := map[];
      cancelled := {};
      nextHandle := 0;
    }

    /** Initialize: take the root path from the root URI and announce the capabilities. */
    method Initialize(params: InitializeParams) returns (r: Result<ServerCapabilities, string>)
      modifies this`rootPath
      ensures r.Success? <==> (params.rootURI == "" || FromURI(params.rootURI).Success?)
      ensures r.Failure? ==> r.error == FromURI(params.rootURI).error && rootPath == old(rootPath)
      ensures r.Success? ==> r.value == Capabilities(configs, params.initializationOptions)
      ensures r.Success? ==> rootPath == (if params.rootURI == "" then old(rootPath) else FromURI(params.rootURI).value)
    {
      if params.rootURI != "" {
        var path := FromURI(params.rootURI);
        if path.Failure? {
          return Failure(path.error);
        }
        rootPath := path.value;
      }
      var caps := FormatCapabilities(configs, params.initializationOptions);
      return Success(caps);
    }

    /**
     * UpdateConfiguration: languages and root markers are replaced when given, log
     * level and debounces when positive; nothing else changes.
     */
    method UpdateConfiguration(config: Config)
      modifies this`configs, this`rootMarkers, this`loglevel, this`lintDebounce, this`formatDebounce
      ensures configs == if config.languages.Some? then config.languages.value else old(configs)
      ensures rootMarkers == if config.rootMarkers.Some? then config.rootMarkers.value else old(rootMarkers)
      ensures loglevel == if config.logLevel > 0 then config.logLevel else old(loglevel)
      ensures lintDebounce == if config.lintDebounce > 0 then config.lintDebounce else old(lintDebounce)
      ensures formatDebounce == if config.formatDebounce > 0 then config.formatDebounce else old(formatDebounce)
    {
      if config.languages.Some? {
        configs := config.languages.value;
      }
      if config.rootMarkers.Some? {
        rootMarkers := config.rootMarkers.value;
      }
      if config.logLevel > 0 {
        loglevel := config.logLevel;
      }
      if config.lintDebounce > 0 {
        lintDebounce := config.lintDebounce;
      }
      if config.formatDebounce > 0 {
        formatDebounce := config.formatDebounce;
      }
      if config.logLevel > 0 {
        loglevel := config.logLevel;
      }
    }

    /**
     * ScheduleLinting: with a timer pending, only reset it, so the pending callback keeps
     * the URI and event it captured; otherwise arm a timer for this URI and event.
     */
    method ScheduleLinting(uri: DocumentURI, event: EventType)
      modifies this`lintTimer
      ensures old(lintTimer).Some? ==> lintTimer == old(lintTimer)
      ensures old(lintTimer).None? ==> lintTimer == Some(PendingLint(uri, event))
    {
      if lintTimer.Some? {
        return;
      }
      lintTimer := Some(PendingLint(uri, event));
    }

    /**
     * The timer callback: clear the timer, cancel the handle running for the captured
     * URI, and register a fresh handle for the new run.
     */
    method FireLintTimer() returns (run: LintRun)
      requires Valid() && lintTimer.Some?
      modifies this`lintTimer, this`running, this`cancelled, this`nextHandle
      ensures Valid()
      ensures lintTimer.None?
      ensures run == LintRun(old(lintTimer).value.uri, old(lintTimer).value.event, old(nextHandle))
      ensures running == old(running)[run.uri := run.handle]
      ensures cancelled == old(cancelled) + (if run.uri in old(running) then {old(running)[run.uri]} else {})
      ensures nextHandle == old(nextHandle) + 1
    {
      var pending := lintTimer.value;
      lintTimer := None;
      if pending.uri in running {
        cancelled := cancelled + {running[pending.uri]};
      }
      run := LintRun(pending.uri, pending.event, nextHandle);
      running := running[pending.uri := nextHandle];
      nextHandle := nextHandle + 1;
    }

    /** OnCloseFile: forget the document. */
    method OnCloseFile(uri: DocumentURI)
      modifies this`files
      ensures files == old(files) - {uri}
    {
      files := files - {uri};
    }

    /** OnSaveFile: schedule a lint for the save. */
    method OnSaveFile(uri: DocumentURI)
      modifies this`lintTimer
      ensures old(lintTimer).Some? ==> lintTimer == old(lintTimer)
      ensures old(lintTimer).None? ==> lintTimer == Some(PendingLint(uri, Save))
    {
      ScheduleLinting(uri, Save);
    }

    /** OnOpenFile: store the document, replacing any earlier entry, and schedule a lint. */
    method OnOpenFile(uri: DocumentURI, languageID: string, version: int, text: string)
      modifies this`files, this`lintTimer
      ensures files == old(files)[uri := FileRef(languageID, text, version)]
      ensures old(lintTimer).Some? ==> lintTimer == old(lintTimer)
      ensures old(lintTimer).None? ==> lintTimer == Some(PendingLint(uri, Open))
    {
      files := files[uri := FileRef(languageID, text, version)];
      ScheduleLinting(uri, Open);
    }

    /**
     * OnUpdateFile: an unknown document is an error; otherwise replace its text, and its
     * version when one is given, and schedule a lint.
     */
    method OnUpdateFile(uri: DocumentURI, text: string, version: Option<int>, event: EventType) returns (err: Option<string>)
      modifies this`files, this`lintTimer
      ensures err.Some? <==> uri !in old(files)
      ensures err.Some? ==> files == old(files) && lintTimer == old(lintTimer) && err.value == "document not found: " + uri
      ensures err.None? ==> files == old(files)[uri := old(files)[uri].(text := text,
        version := if version.Some? then version.value else old(files)[uri].version)]
      ensures err.None? && old(lintTimer).Some? ==> lintTimer == old(lintTimer)
      ensures err.None? && old(lintTimer).None? ==> lintTimer == Some(PendingLint(uri, event))
    {
      if uri !in files {
        return Some("document not found: " + uri);
      }
      var f := files[uri].(text := text);
      if version.Some? {
        f := f.(version := version.value);
      }
      files := files[uri := f];
      ScheduleLinting(uri, event);
      return None;
    }
  }
}
