/**
 * langserver/handle_text_document_definition.go: go-to-definition through a ctags file.
 * The word under the cursor (a class-boundary scan without hover's underscore rule) is
 * looked up in the first "tags" file found walking up from the document's directory; each
 * tag line naming the word gives locations by line number or by a search pattern.
 */
module LsDefinition {
  import opened Wrappers
  import opened Text
  import opened Types
  import opened CoreHandler
  import opened LsServer
  import LsHover

  // ------------------------------------------------------------------ the word span

  /** The first position at or after i whose class differs from c0, or the line length. */
  function PlainWordEnd(chars: string, cls: char -> int, c0: int, i: nat): (q: nat)
    requires i <= |chars|
    ensures i <= q <= |chars|
    decreases |chars| - i
  {
    if i == |chars| then i
    else if cls(chars[i]) != c0 then i
    else PlainWordEnd(chars, cls, c0, i + 1)
  }

  /** Where the definition word ends: the first later change of class, or the line end. */
  function PlainSpanEnd(chars: string, cls: char -> int, c: int): nat
    requires 0 <= c <= |chars|
  {
    if c < |chars| then PlainWordEnd(chars, cls, cls(chars[c]), c + 1) else |chars|
  }

  /** The word ends at the first change of class after the character: everything before it shares the class. */
  lemma {:induction false} PlainWordEndSpec(chars: string, cls: char -> int, c0: int, i: nat)
    requires i <= |chars|
    ensures var q := PlainWordEnd(chars, cls, c0, i);
      (q < |chars| ==> cls(chars[q]) != c0)
      && forall j :: i <= j < q ==> cls(chars[j]) == c0
    decreases |chars| - i
  {
    if i < |chars| && cls(chars[i]) == c0 {
      PlainWordEndSpec(chars, cls, c0, i + 1);
    }
  }

  /** Without the underscore rule the word can only be shorter than hover's. */
  lemma {:induction false} PlainEndBeforeWordEnd(chars: string, cls: char -> int, c0: int, i: nat)
    requires i <= |chars|
    ensures PlainWordEnd(chars, cls, c0, i) <= WordEnd(chars, cls, c0, i)
    decreases |chars| - i
  {
    if i < |chars| && cls(chars[i]) == c0 {
      PlainEndBeforeWordEnd(chars, cls, c0, i + 1);
    }
  }

  /** The boundary loop of definition. */
  method DefinitionSpan(chars: string, c: int, cls: char -> int) returns (prevPos: int, currPos: int)
    requires 0 <= c <= |chars|
    ensures prevPos == LsHover.SpanStart(chars, cls, c) && currPos == PlainSpanEnd(chars, cls, c)
  {
    prevPos := 0;
    currPos := -1;
    var prevCls := Invalid;
    var i := 0;
    while i < |chars|
      invariant 0 <= i <= |chars|
      invariant currPos == -1
      invariant i == 0 ==> prevPos == 0 && prevCls == Invalid
      invariant 0 < i <= c + 1 ==> prevPos == WordStart(chars, cls, i - 1) && prevCls == cls(chars[i - 1])
      invariant i > c + 1 ==>
                  prevPos == WordStart(chars, cls, c) && prevCls == cls(chars[c])
                  && PlainWordEnd(chars, cls, cls(chars[c]), c + 1) == PlainWordEnd(chars, cls, cls(chars[c]), i)
    {
      var currCls := cls(chars[i]);
      if currCls != prevCls {
        if i <= c {
          prevPos := i;
        } else {
          currPos := i;
          break;
        }
      }
      prevCls := currCls;
      i := i + 1;
    }
    if currPos == -1 {
      currPos := |chars|;
    }
  }

  // ------------------------------------------------------------------ findTags

  /** A "tags" entry is listed in the directory. */
  predicate HasTags(fs: Paths.FileSystem, dir: string) {
    exists e :: e in Paths.ReadDir(fs, dir) && e.name == "tags"
  }

  /**
   * The walk of findTags from base: base when it holds "tags"; otherwise its parent, unless
   * that parent is empty, unchanged or the root path, which ends the walk with "".
   */
  function TagsDir(fs: Paths.FileSystem, base: string, rootPath: string): string
    decreases Paths.Height(base)
  {
    if HasTags(fs, base) then base
    else
      var tmp := Paths.Dir(base);
      if tmp == "" || tmp == base || tmp == rootPath then ""
      else
        Paths.DirDescends(base);
        TagsDir(fs, tmp, rootPath)
  }

  /** The walk of findTags ends after d: its parent is empty, d itself, or the root path. */
  predicate WalkStops(d: string, rootPath: string) {
    Paths.Dir(d) == "" || Paths.Dir(d) == d || Paths.Dir(d) == rootPath
  }

  /** The walk from base does not stop before its k-th step, so it looks at the k-th ancestor. */
  predicate WalkVisits(base: string, rootPath: string, k: nat) {
    forall i :: 0 <= i < k ==> !WalkStops(Paths.Ancestor(base, i), rootPath)
  }

  lemma WalkVisitsShift(base: string, rootPath: string, k: nat)
    ensures WalkVisits(base, rootPath, k + 1) <==> !WalkStops(base, rootPath) && WalkVisits(Paths.Dir(base), rootPath, k)
  {
    forall i | 0 <= i < k {
      Paths.AncestorShift(base, i);
    }
    assert Paths.Ancestor(base, 0) == base;
    if !WalkStops(base, rootPath) && WalkVisits(Paths.Dir(base), rootPath, k) {
      forall i | 0 <= i < k + 1
        ensures !WalkStops(Paths.Ancestor(base, i), rootPath)
      {
        if i > 0 {
          Paths.AncestorShift(base, i - 1);
        }
      }
    }
  }

  /** A directory findTags returns holds "tags", is visited by the walk, and no directory before it holds one. */
  lemma {:induction false} TagsDirNearest(fs: Paths.FileSystem, base: string, rootPath: string) returns (k: nat)
    requires TagsDir(fs, base, rootPath) != ""
    ensures TagsDir(fs, base, rootPath) == Paths.Ancestor(base, k) && HasTags(fs, Paths.Ancestor(base, k))
    ensures WalkVisits(base, rootPath, k)
    ensures forall i :: 0 <= i < k ==> !HasTags(fs, Paths.Ancestor(base, i))
    decreases Paths.Height(base)
  {
    if HasTags(fs, base) {
      k := 0;
    } else {
      var tmp := Paths.Dir(base);
      Paths.DirDescends(base);
      var k' := TagsDirNearest(fs, tmp, rootPath);
      k := k' + 1;
      Paths.AncestorShift(base, k');
      WalkVisitsShift(base, rootPath, k');
      forall i | 0 <= i < k
        ensures !HasTags(fs, Paths.Ancestor(base, i))
      {
        if i > 0 {
          Paths.AncestorShift(base, i - 1);
        }
      }
    }
  }

  /** When findTags returns "", no directory the walk visits holds "tags". */
  lemma {:induction false} TagsDirComplete(fs: Paths.FileSystem, base: string, rootPath: string, k: nat)
    requires base != "" && TagsDir(fs, base, rootPath) == ""
    requires WalkVisits(base, rootPath, k)
    ensures !HasTags(fs, Paths.Ancestor(base, k))
    decreases k
  {
    if k > 0 {
      WalkVisitsShift(base, rootPath, k - 1);
      Paths.DirDescends(base);
      TagsDirComplete(fs, Paths.Dir(base), rootPath, k - 1);
      Paths.AncestorShift(base, k - 1);
    }
  }

  /**
   * findTags returns the nearest directory on the walk up from base that holds "tags";
   * "" means no directory the walk visits holds one. The root path is returned only when
   * the walk starts there.
   */
  lemma TagsDirSpec(fs: Paths.FileSystem, base: string, rootPath: string)
    ensures TagsDir(fs, base, rootPath) != "" ==> exists k: nat ::
      && TagsDir(fs, base, rootPath) == Paths.Ancestor(base, k) && HasTags(fs, Paths.Ancestor(base, k))
      && WalkVisits(base, rootPath, k)
      && forall i :: 0 <= i < k ==> !HasTags(fs, Paths.Ancestor(base, i))
    ensures base != "" && TagsDir(fs, base, rootPath) == "" ==>
      forall k: nat :: WalkVisits(base, rootPath, k) ==> !HasTags(fs, Paths.Ancestor(base, k))
    ensures TagsDir(fs, base, rootPath) == rootPath && rootPath != "" ==> base == rootPath
    ensures HasTags(fs, base) ==> TagsDir(fs, base, rootPath) == base
  {
    if TagsDir(fs, base, rootPath) != "" {
      var k := TagsDirNearest(fs, base, rootPath);
      if TagsDir(fs, base, rootPath) == rootPath && k > 0 {
        assert false;
      }
    }
    if base != "" && TagsDir(fs, base, rootPath) == "" {
      forall k: nat | WalkVisits(base, rootPath, k)
        ensures !HasTags(fs, Paths.Ancestor(base, k))
      {
        TagsDirComplete(fs, base, rootPath, k);
      }
    }
  }

  /** findTags */
  method FindTags(fs: Paths.FileSystem, fname: string, rootPath: string) returns (base: string)
    ensures base == TagsDir(fs, Paths.Dir(fname), rootPath)
  {
    base := Paths.Dir(fname);
    while true
      invariant TagsDir(fs, base, rootPath) == TagsDir(fs, Paths.Dir(fname), rootPath)
      decreases Paths.Height(base)
    {
      var found := exists e :: e in Paths.ReadDir(fs, base) && e.name == "tags";
      if found {
        return;
      }
      var tmp := Paths.Dir(base);
      if tmp == "" || tmp == base || tmp == rootPath {
        return "";
      }
      Paths.DirDescends(base);
      base := tmp;
    }
  }

  // ------------------------------------------------------------------ ctags

  /**
   * The world a definition request sees: the directory tree, the character classes, the
   * files that can be read, whether a search pattern compiles and whether it matches a line.
   */
  datatype DefinitionEnv = DefinitionEnv(
    fs: Paths.FileSystem,
    cls: char -> int,
    readFile: string -> Option<string>,
    patternOk: string -> bool,
    matches: (string, string) -> bool)

  /** A zero-width location at the start of a line. */
  function LineStart(uri: DocumentURI, line: int): Location {
    Location(uri, Range(Position(line, 0), Position(line, 0)))
  }

  /** The locations of the first n lines that the search pattern matches. */
  function PatternLocations(lines: seq<string>, pattern: string, uri: DocumentURI, env: DefinitionEnv, n: nat): seq<Location>
    requires n <= |lines|
  {
    if n == 0 then []
    else PatternLocations(lines, pattern, uri, env, n - 1)
         + (if env.matches(pattern, lines[n - 1]) then [LineStart(uri, n - 1)] else [])
  }

  /**
   * The locations an address gives in the tagged file: None when it is empty, which the
   * source indexes without a check; a search pattern gives every line it matches, none when
   * it does not compile; a line number gives that line, none when it is not a number or
   * does not fit in 64 bits, and the line before it wraps round as int64 arithmetic does.
   */
  function AddressLocations(address: string, fullpath: string, lines: seq<string>, env: DefinitionEnv): Option<seq<Location>> {
    if |address| == 0 then None
    else if address[0] == '/' then
      if !env.patternOk(address[1..]) then Some([])
      else Some(PatternLocations(lines, address[1..], Paths.ToURI(fullpath), env, |lines|))
    else match Atoi(address)
      case None => Some([])
      case Some(i) => Some([LineStart(Paths.ToURI(fullpath), Wrap64(i - 1))])
  }

  /**
   * A line number of twenty digits or more does not fit in 64 bits: Atoi fails, and the tag
   * line gives nothing.
   */
  lemma AddressOverflowSkipped(address: string, fullpath: string, lines: seq<string>, env: DefinitionEnv)
    requires AllDigits(address) && address[0] != '0' && |address| >= 20
    ensures AddressLocations(address, fullpath, lines, env) == Some([])
  {
    AtoiRejectsLong(address);
  }

  /** The least int64 is a line number, and the line before it wraps round to the greatest. */
  lemma AddressMinWraps(address: string, fullpath: string, lines: seq<string>, env: DefinitionEnv)
    requires Atoi(address) == Some(MinInt64)
    ensures AddressLocations(address, fullpath, lines, env) == Some([LineStart(Paths.ToURI(fullpath), MaxInt64)])
  {
  }

  /**
   * One line of the tags file: nothing for a comment, a line of fewer than four fields,
   * another name or a tagged file that cannot be read; otherwise what its address gives.
   */
  function TagLocations(text: string, word: string, rootPath: string, env: DefinitionEnv): Option<seq<Location>> {
    if HasPrefix(text, "!") then Some([])
    else
      var token := SplitN(text, '\t', 4);
      if |token| < 4 || token[0] != word then Some([])
      else
        var fullpath := Paths.Join(rootPath, token[1]);
        match env.readFile(fullpath)
        case None => Some([])
        case Some(content) => AddressLocations(TrimRight(token[2], ";\""), fullpath, Split(content, '\n'), env)
  }

  /** The locations of the tags file's lines, in order; None once a line has an empty address. */
  function TagsLocations(lines: seq<string>, word: string, rootPath: string, env: DefinitionEnv): Option<seq<Location>>
    decreases |lines|
  {
    if |lines| == 0 then Some([])
    else match TagsLocations(lines[..|lines| - 1], word, rootPath, env)
      case None => None
      case Some(earlier) =>
        match TagLocations(lines[|lines| - 1], word, rootPath, env)
        case None => None
        case Some(found) => Some(earlier + found)
  }

  /** Every location found sits at the start of a line, with zero width. */
  predicate AtLineStarts(locations: seq<Location>) {
    forall l :: l in locations ==> l.range.start == l.range.end && l.range.start.character == 0
  }

  lemma {:induction false} PatternAtLineStarts(lines: seq<string>, pattern: string, uri: DocumentURI, env: DefinitionEnv, n: nat)
    requires n <= |lines|
    ensures AtLineStarts(PatternLocations(lines, pattern, uri, env, n))
    ensures forall l :: l in PatternLocations(lines, pattern, uri, env, n) ==>
      l.uri == uri && 0 <= l.range.start.line < n && env.matches(pattern, lines[l.range.start.line])
    decreases n
  {
    if n > 0 {
      PatternAtLineStarts(lines, pattern, uri, env, n - 1);
    }
  }

  /** A tag line for the word: not a comment, at least four tab-separated fields, the first of them the word. */
  predicate NamesWord(text: string, word: string) {
    !HasPrefix(text, "!") && |SplitN(text, '\t', 4)| >= 4 && SplitN(text, '\t', 4)[0] == word
  }

  /**
   * A line that is not a tag line for the word gives no location; every location a tag
   * line gives is zero-width at the start of a line of the file its second field names.
   */
  lemma TagLocationsSpec(text: string, word: string, rootPath: string, env: DefinitionEnv)
    ensures !NamesWord(text, word) ==> TagLocations(text, word, rootPath, env) == Some([])
    ensures NamesWord(text, word) && TagLocations(text, word, rootPath, env).Some? ==>
      AtLineStarts(TagLocations(text, word, rootPath, env).value)
      && forall l :: l in TagLocations(text, word, rootPath, env).value ==>
           l.uri == Paths.ToURI(Paths.Join(rootPath, SplitN(text, '\t', 4)[1]))
  {
    if NamesWord(text, word) {
      var token := SplitN(text, '\t', 4);
      var address := TrimRight(token[2], ";\"");
      var fullpath := Paths.Join(rootPath, token[1]);
      var content := env.readFile(fullpath);
      if content.Some? && |address| > 0 && address[0] == '/' && env.patternOk(address[1..]) {
        var ls := Split(content.value, '\n');
        PatternAtLineStarts(ls, address[1..], Paths.ToURI(fullpath), env, |ls|);
      }
    }
  }

  /** The location comes from a tag line for the word among the lines. */
  predicate FromTagLine(l: Location, lines: seq<string>, word: string, rootPath: string, env: DefinitionEnv) {
    exists t :: 0 <= t < |lines| && NamesWord(lines[t], word)
      && TagLocations(lines[t], word, rootPath, env).Some? && l in TagLocations(lines[t], word, rootPath, env).value
  }

  /** Every line of a tags file that gives locations contributes all of them, in order. */
  lemma {:induction false} TagsLocationsCover(lines: seq<string>, word: string, rootPath: string, env: DefinitionEnv)
    ensures TagsLocations(lines, word, rootPath, env).Some? ==>
      forall t :: 0 <= t < |lines| ==>
        && TagLocations(lines[t], word, rootPath, env).Some?
        && forall l :: l in TagLocations(lines[t], word, rootPath, env).value ==> l in TagsLocations(lines, word, rootPath, env).value
    decreases |lines|
  {
    if |lines| > 0 && TagsLocations(lines, word, rootPath, env).Some? {
      var prefix := lines[..|lines| - 1];
      TagsLocationsCover(prefix, word, rootPath, env);
      var earlier := TagsLocations(prefix, word, rootPath, env).value;
      var found := TagLocations(lines[|lines| - 1], word, rootPath, env).value;
      assert TagsLocations(lines, word, rootPath, env).value == earlier + found;
      forall t | 0 <= t < |lines| - 1
        ensures lines[t] == prefix[t]
      {
      }
    }
  }

  /** A location from a tag line of a prefix comes from a tag line of the whole. */
  lemma FromTagLineExtends(l: Location, lines: seq<string>, n: nat, word: string, rootPath: string, env: DefinitionEnv)
    requires n <= |lines| && FromTagLine(l, lines[..n], word, rootPath, env)
    ensures FromTagLine(l, lines, word, rootPath, env)
  {
    var prefix := lines[..n];
    var t :| 0 <= t < |prefix| && NamesWord(prefix[t], word)
      && TagLocations(prefix[t], word, rootPath, env).Some? && l in TagLocations(prefix[t], word, rootPath, env).value;
    assert prefix[t] == lines[t];
  }

  /** Every location of a tags file comes from one of its tag lines for the word. */
  lemma {:induction false} TagsLocationsFrom(lines: seq<string>, word: string, rootPath: string, env: DefinitionEnv)
    ensures TagsLocations(lines, word, rootPath, env).Some? ==>
      forall l :: l in TagsLocations(lines, word, rootPath, env).value ==> FromTagLine(l, lines, word, rootPath, env)
    decreases |lines|
  {
    if |lines| > 0 && TagsLocations(lines, word, rootPath, env).Some? {
      var n := |lines| - 1;
      var prefix := lines[..n];
      var last := lines[n];
      TagsLocationsFrom(prefix, word, rootPath, env);
      TagLocationsSpec(last, word, rootPath, env);
      var earlier := TagsLocations(prefix, word, rootPath, env).value;
      var found := TagLocations(last, word, rootPath, env).value;
      assert TagsLocations(lines, word, rootPath, env).value == earlier + found;
      forall l | l in earlier + found
        ensures FromTagLine(l, lines, word, rootPath, env)
      {
        if l in earlier {
          FromTagLineExtends(l, lines, n, word, rootPath, env);
        }
      }
    }
  }

  /**
   * The locations of the tags file are exactly those its tag lines for the word give:
   * each sits at the start of a line with zero width and comes from such a tag line, and
   * every location of every line is among them.
   */
  lemma TagsAtLineStarts(lines: seq<string>, word: string, rootPath: string, env: DefinitionEnv)
    ensures TagsLocations(lines, word, rootPath, env).Some? ==>
      && AtLineStarts(TagsLocations(lines, word, rootPath, env).value)
      && (forall l :: l in TagsLocations(lines, word, rootPath, env).value ==> FromTagLine(l, lines, word, rootPath, env))
      && (forall t :: 0 <= t < |lines| ==>
            && TagLocations(lines[t], word, rootPath, env).Some?
            && forall l :: l in TagLocations(lines[t], word, rootPath, env).value ==> l in TagsLocations(lines, word, rootPath, env).value)
  {
    TagsLocationsCover(lines, word, rootPath, env);
    TagsLocationsFrom(lines, word, rootPath, env);
    if TagsLocations(lines, word, rootPath, env).Some? {
      forall l | l in TagsLocations(lines, word, rootPath, env).value
        ensures l.range.start == l.range.end && l.range.start.character == 0
      {
        var t :| 0 <= t < |lines| && NamesWord(lines[t], word)
          && TagLocations(lines[t], word, rootPath, env).Some? && l in TagLocations(lines[t], word, rootPath, env).value;
        TagLocationsSpec(lines[t], word, rootPath, env);
      }
    }
  }

  datatype DefinitionError =
    | DocumentNotFound(uri: DocumentURI)
    | InvalidPosition(pos: Position)
    | TagsUnreadable(path: string)
    | AddressMissing

  /** ctags: the locations of the word in the tags file, or why there are none. */
  function Ctags(tagsPath: string, word: string, rootPath: string, env: DefinitionEnv): Result<Option<seq<Location>>, DefinitionError> {
    match env.readFile(tagsPath)
    case None => Failure(TagsUnreadable(tagsPath))
    case Some(content) =>
      match TagsLocations(ScanLines(content), word, rootPath, env)
      case None => Failure(AddressMissing)
      case Some(locations) => Success(Some(locations))
  }

  /** The word definition looks up: from hover's start to the first later change of class. */
  function DefinitionWord(chars: string, cls: char -> int, c: int): string
    requires 0 <= c <= |chars|
  {
    chars[LsHover.SpanStart(chars, cls, c)..PlainSpanEnd(chars, cls, c)]
  }

  /** The position lies on a line of the document, at most at its end. */
  predicate ValidPosition(text: string, pos: Position) {
    var lines := Split(text, '\n');
    LsHover.LineValid(lines, pos.line) && 0 <= pos.character <= |lines[pos.line]|
  }

  /** definition, with the corrected line check; None stands for the source's nil list. */
  function DefinitionOf(files: map<DocumentURI, FileRef>, rootPath: string, uri: DocumentURI, pos: Position,
                        env: DefinitionEnv): Result<Option<seq<Location>>, DefinitionError>
  {
    if uri !in files then Failure(DocumentNotFound(uri))
    else
      var lines := Split(files[uri].text, '\n');
      if !LsHover.LineValid(lines, pos.line) then Failure(InvalidPosition(pos))
      else
        var chars := lines[pos.line];
        if pos.character < 0 || pos.character > |chars| then Failure(InvalidPosition(pos))
        else
          var word := DefinitionWord(chars, env.cls, pos.character);
          match Paths.FromURI(uri)
          case Failure(_) => Success(None)
          case Success(fname) =>
            var base := TagsDir(env.fs, Paths.Dir(fname), rootPath);
            if base == "" then Success(None)
            else Ctags(Paths.Join(base, "tags"), word, rootPath, env)
  }

  /**
   * What definition answers: an unknown document or a position off the text fails; a URI
   * that is not a file, or a walk that finds no tags file, answers nil; an unreadable
   * tags file fails; and a list holds exactly the locations that the tags file's tag lines
   * for the word under the cursor give, each at the start of a line with zero width.
   */
  lemma DefinitionOutcomes(files: map<DocumentURI, FileRef>, rootPath: string, uri: DocumentURI, pos: Position, env: DefinitionEnv)
    ensures uri !in files ==> DefinitionOf(files, rootPath, uri, pos, env) == Failure(DocumentNotFound(uri))
    ensures uri in files && !ValidPosition(files[uri].text, pos) ==>
      DefinitionOf(files, rootPath, uri, pos, env) == Failure(InvalidPosition(pos))
    ensures uri in files && ValidPosition(files[uri].text, pos) && Paths.FromURI(uri).Failure? ==>
      DefinitionOf(files, rootPath, uri, pos, env) == Success(None)
    ensures uri in files && ValidPosition(files[uri].text, pos) && Paths.FromURI(uri).Success? ==>
      var base := TagsDir(env.fs, Paths.Dir(Paths.FromURI(uri).value), rootPath);
      var tags := Paths.Join(base, "tags");
      && (base == "" ==> DefinitionOf(files, rootPath, uri, pos, env) == Success(None))
      && (base != "" && env.readFile(tags).None? ==> DefinitionOf(files, rootPath, uri, pos, env) == Failure(TagsUnreadable(tags)))
      && (base != "" && env.readFile(tags).Some? && DefinitionOf(files, rootPath, uri, pos, env).Success? ==>
            var found := DefinitionOf(files, rootPath, uri, pos, env).value;
            var lines := Split(files[uri].text, '\n');
            var word := DefinitionWord(lines[pos.line], env.cls, pos.character);
            var tagLines := ScanLines(env.readFile(tags).value);
            && found.Some?
            && AtLineStarts(found.value)
            && (forall l :: l in found.value ==> FromTagLine(l, tagLines, word, rootPath, env))
            && (forall t, l ::
                  (0 <= t < |tagLines| && TagLocations(tagLines[t], word, rootPath, env).Some?
                   && l in TagLocations(tagLines[t], word, rootPath, env).value) ==> l in found.value))
  {
    if uri in files && ValidPosition(files[uri].text, pos) && Paths.FromURI(uri).Success? {
      var lines := Split(files[uri].text, '\n');
      var base := TagsDir(env.fs, Paths.Dir(Paths.FromURI(uri).value), rootPath);
      var tags := Paths.Join(base, "tags");
      if base != "" && env.readFile(tags).Some? {
        var word := DefinitionWord(lines[pos.line], env.cls, pos.character);
        TagsAtLineStarts(ScanLines(env.readFile(tags).value), word, rootPath, env);
      }
    }
  }

  // ------------------------------------------------------------------ the handler

  /** The search loop over the target file's lines. */
  method SearchPattern(lines: seq<string>, pattern: string, uri: DocumentURI, env: DefinitionEnv) returns (locations: seq<Location>)
    ensures locations == PatternLocations(lines, pattern, uri, env, |lines|)
  {
    locations := [];
    for i := 0 to |lines|
      invariant locations == PatternLocations(lines, pattern, uri, env, i)
    {
      if env.matches(pattern, lines[i]) {
        locations := locations + [Location(uri, Range(Position(i, 0), Position(i, 0)))];
      }
    }
  }

  /** The branch on the address of a tag line. */
  method ResolveAddress(address: string, fullpath: string, lines: seq<string>, env: DefinitionEnv) returns (r: Option<seq<Location>>)
    ensures r == AddressLocations(address, fullpath, lines, env)
  {
    if |address| == 0 {
      return None;
    }
    if address[0] == '/' {
      if !env.patternOk(address[1..]) {
        return Some([]);
      }
      var found := SearchPattern(lines, address[1..], Paths.ToURI(fullpath), env);
      return Some(found);
    }
    var i := Atoi(address);
    if i.None? {
      return Some([]);
    }
    return Some([Location(Paths.ToURI(fullpath), Range(Position(Wrap64(i.value - 1), 0), Position(Wrap64(i.value - 1), 0)))]);
  }

  /** One iteration of the tags loop. */
  method ReadTagLine(text: string, word: string, rootPath: string, env: DefinitionEnv) returns (r: Option<seq<Location>>)
    ensures r == TagLocations(text, word, rootPath, env)
  {
    if HasPrefix(text, "!") {
      return Some([]);
    }
    var token := SplitN(text, '\t', 4);
    if |token| < 4 {
      return Some([]);
    }
    if token[0] != word {
      return Some([]);
    }
    var address := TrimRight(token[2], ";\"");
    var fullpath := Paths.Join(rootPath, token[1]);
    var content := env.readFile(fullpath);
    if content.None? {
      return Some([]);
    }
    var lines := Split(content.value, '\n');
    r := ResolveAddress(address, fullpath, lines, env);
  }

  /** A missing address among the first i lines is the outcome of them all. */
  lemma {:induction false} MissingKept(lines: seq<string>, word: string, rootPath: string, env: DefinitionEnv, i: nat)
    requires i <= |lines| && TagsLocations(lines[..i], word, rootPath, env).None?
    ensures TagsLocations(lines, word, rootPath, env).None?
    decreases |lines|
  {
    if i == |lines| {
      assert lines[..i] == lines;
    } else {
      var prefix := lines[..|lines| - 1];
      assert prefix[..i] == lines[..i];
      MissingKept(prefix, word, rootPath, env, i);
    }
  }

  /** The scanner loop over the lines of the tags file. */
  method ScanTagLines(lines: seq<string>, word: string, rootPath: string, env: DefinitionEnv) returns (r: Option<seq<Location>>)
    ensures r == TagsLocations(lines, word, rootPath, env)
  {
    var locations: seq<Location> := [];
    for i := 0 to |lines|
      invariant TagsLocations(lines[..i], word, rootPath, env) == Some(locations)
    {
      assert lines[..i + 1][..i] == lines[..i];
      var found := ReadTagLine(lines[i], word, rootPath, env);
      if found.None? {
        MissingKept(lines, word, rootPath, env, i + 1);
        return None;
      }
      locations := locations + found.value;
    }
    assert lines[..|lines|] == lines;
    return Some(locations);
  }

  /** ctags */
  method ScanTags(tagsPath: string, word: string, rootPath: string, env: DefinitionEnv) returns (r: Result<Option<seq<Location>>, DefinitionError>)
    ensures r == Ctags(tagsPath, word, rootPath, env)
  {
    var content := env.readFile(tagsPath);
    if content.None? {
      return Failure(TagsUnreadable(tagsPath));
    }
    var found := ScanTagLines(ScanLines(content.value), word, rootPath, env);
    if found.None? {
      return Failure(AddressMissing);
    }
    return Success(Some(found.value));
  }

  /** definition */
  method Definition(h: LsHandler, uri: DocumentURI, pos: Position, env: DefinitionEnv) returns (r: Result<Option<seq<Location>>, DefinitionError>)
    ensures r == DefinitionOf(h.files, h.rootPath, uri, pos, env)
  {
    if uri !in h.files {
      return Failure(DocumentNotFound(uri));
    }
    var f := h.files[uri];
    var lines := Split(f.text, '\n');
    if pos.line < 0 || pos.line >= |lines| {
      return Failure(InvalidPosition(pos));
    }
    var chars := lines[pos.line];
    if pos.character < 0 || pos.character > |chars| {
      return Failure(InvalidPosition(pos));
    }
    var prevPos, currPos := DefinitionSpan(chars, pos.character, env.cls);
    var word := chars[prevPos..currPos];
    var path := Paths.FromURI(uri);
    if path.Failure? {
      return Success(None);
    }
    var base := FindTags(env.fs, path.value, h.rootPath);
    if base == "" {
      return Success(None);
    }
    r := ScanTags(Paths.Join(base, "tags"), word, h.rootPath, env);
  }
}
