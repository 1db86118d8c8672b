/**
 * langserver/handle_text_document_hover.go: the word under the cursor, found by the same
 * class-boundary scan as the core's wordAt, is handed to the first hover command, whose
 * trimmed output becomes the hover text over the word's span.
 */
module LsHover {
  import opened Wrappers
  import opened Text
  import opened Types
  import opened CoreHandler
  import CoreLinting
  import opened LsServer

  // ------------------------------------------------------------------ the position check

  /** The line check as written: a line index equal to the number of lines passes it. */
  predicate LineAcceptedAsWritten(lines: seq<string>, line: int) {
    !(line < 0 || line > |lines|)
  }

  /** The line check as intended: the index names one of the lines. */
  predicate LineValid(lines: seq<string>, line: int) {
    0 <= line < |lines|
  }

  /**
   * For the one-line text "a" the check as written accepts line 1, although the text has
   * no line 1: the next step, indexing the lines with it, is out of range.
   */
  lemma AsWrittenAcceptsPastEnd()
    ensures LineAcceptedAsWritten(Split("a", '\n'), 1)
    ensures !LineValid(Split("a", '\n'), 1) && 1 == |Split("a", '\n')|
  {
    SplitFree("a", '\n');
  }

  /** The corrected check keeps every line the written one accepts except the one past the end. */
  lemma LineValidNarrowsAsWritten(lines: seq<string>, line: int)
    ensures LineValid(lines, line) <==> LineAcceptedAsWritten(lines, line) && line != |lines|
  {
  }

  // ------------------------------------------------------------------ the word span

  /** Where the hover word starts: the last class boundary at or before the character. */
  function SpanStart(chars: string, cls: char -> int, c: int): nat
    requires 0 <= c <= |chars|
  {
    if |chars| == 0 then 0
    else if c == |chars| then WordStart(chars, cls, c - 1)
    else WordStart(chars, cls, c)
  }

  /** Where the hover word ends: the first later non-'_' change of class, or the line end. */
  function SpanEnd(chars: string, cls: char -> int, c: int): nat
    requires 0 <= c <= |chars|
  {
    if c < |chars| then WordEnd(chars, cls, cls(chars[c]), c + 1) else |chars|
  }

  /**
   * The span encloses the character (strictly after it when the character is inside the
   * line), and the word it cuts out is the one the core's wordAt returns.
   */
  lemma SpanSpec(text: string, pos: Position, cls: char -> int)
    requires LineValid(Split(text, '\n'), pos.line)
    requires 0 <= pos.character <= |Split(text, '\n')[pos.line]|
    ensures var chars := Split(text, '\n')[pos.line];
      var p := SpanStart(chars, cls, pos.character);
      var q := SpanEnd(chars, cls, pos.character);
      && p <= pos.character <= q <= |chars|
      && (pos.character < |chars| ==> pos.character < q)
      && chars[p..q] == WordAtSpec(text, pos, cls)
  {
  }

  /** The boundary loop of hover, which keeps the previous class across an underscore. */
  method HoverSpan(chars: string, c: int, cls: char -> int) returns (prevPos: int, currPos: int)
    requires 0 <= c <= |chars|
    ensures prevPos == SpanStart(chars, cls, c) && currPos == SpanEnd(chars, cls, c)
  {
    prevPos := 0;
    currPos := -1;
    var prevCls := Invalid;
    var i := 0;
    while i < |chars|
      invariant 0 <= i <= |chars|
      invariant currPos == -1
      invariant i == 0 ==> prevPos == 0 && prevCls == Invalid
      invariant 0 < i <= c + 1 ==> prevPos == WordStart(chars, cls, i - 1) && prevCls == cls(chars[i - 1])
      invariant i > c + 1 ==>
                  prevPos == WordStart(chars, cls, c) && prevCls == cls(chars[c])
                  && WordEnd(chars, cls, cls(chars[c]), c + 1) == WordEnd(chars, cls, cls(chars[c]), i)
    {
      var currCls := cls(chars[i]);
      if currCls != prevCls {
        if i <= c {
          prevPos := i;
        } else {
          if chars[i] == '_' {
            i := i + 1;
            continue;
          }
          currPos := i;
          break;
        }
      }
      prevCls := currCls;
      i := i + 1;
    }
    if currPos == -1 {
      currPos := |chars|;
    }
  }

  // ------------------------------------------------------------------ the request

  /** The world a hover request sees: the directory tree, the character classes and each command's output or failure. */
  datatype HoverEnv = HoverEnv(
    fs: Paths.FileSystem,
    cls: char -> int,
    run: CoreLinting.Invocation -> FormatRun)

  datatype HoverError =
    | DocumentNotFound(uri: DocumentURI)
    | InvalidURI(uri: DocumentURI)
    | InvalidPosition(pos: Position)
    | CommandFailed(error: string)

  /** The configs with a hover command, in order. */
  function WithHoverCommand(cfgs: seq<LsLanguage>): seq<LsLanguage>
    decreases |cfgs|
  {
    if |cfgs| == 0 then []
    else WithHoverCommand(cfgs[..|cfgs| - 1]) + (if cfgs[|cfgs| - 1].hoverCommand != "" then [cfgs[|cfgs| - 1]] else [])
  }

  /** The language's configs with a hover command, then the wildcard ones. */
  function HoverConfigs(configs: map<string, seq<LsLanguage>>, langID: string): seq<LsLanguage> {
    (if langID in configs then WithHoverCommand(configs[langID]) else [])
    + (if Wildcard in configs then WithHoverCommand(configs[Wildcard]) else [])
  }

  lemma {:induction false} WithHoverCommandMembers(cfgs: seq<LsLanguage>, c: LsLanguage)
    ensures c in WithHoverCommand(cfgs) <==> c in cfgs && c.hoverCommand != ""
    decreases |cfgs|
  {
    if |cfgs| > 0 {
      WithHoverCommandMembers(cfgs[..|cfgs| - 1], c);
      assert cfgs == cfgs[..|cfgs| - 1] + [cfgs[|cfgs| - 1]];
    }
  }

  /** The hover command: " ${INPUT}" appended unless piped or present, and every ${INPUT} replaced by the word. */
  function HoverCommandFor(config: LsLanguage, word: string): string {
    var command :=
      if !config.hoverStdin && !Contains(config.hoverCommand, "${INPUT}")
      then config.hoverCommand + " ${INPUT}" else config.hoverCommand;
    ReplaceAll(command, "${INPUT}", word)
  }

  /** The answer for a word span once a config is chosen: the trimmed output over the span. */
  function HoverFromRun(config: LsLanguage, line: int, p: int, q: int, run: FormatRun): Result<Option<Hover>, HoverError> {
    match run
    case FormatFailed(error, _) => Failure(CommandFailed(error))
    case FormatSucceeded(output) =>
      Success(Some(Hover(MarkupContent(if config.hoverType == "markdown" then Markdown else PlainText, TrimSpace(output)),
                         Range(Position(line, p), Position(line, q)))))
  }

  /** The command the first hover config runs on the word, in the file's root, fed the word when piped. */
  function HoverInvocation(config: LsLanguage, word: string, fname: string, rootMarkers: seq<string>, rootPath: string,
                           env: HoverEnv): CoreLinting.Invocation
  {
    CoreLinting.Invocation(
      HoverCommandFor(config, word), FindRootPath(env.fs, fname, config.base, rootMarkers, rootPath),
      config.base.env, if config.hoverStdin then Some(word) else None)
  }

  /** hover, with the corrected line check. */
  function HoverOf(files: map<DocumentURI, FileRef>, configs: map<string, seq<LsLanguage>>, rootMarkers: seq<string>,
                   rootPath: string, uri: DocumentURI, pos: Position, env: HoverEnv): Result<Option<Hover>, HoverError>
  {
    if uri !in files then Failure(DocumentNotFound(uri))
    else if Paths.FromURI(uri).Failure? then Failure(InvalidURI(uri))
    else
      var fname := Paths.FromURI(uri).value;
      var lines := Split(files[uri].text, '\n');
      if !LineValid(lines, pos.line) then Failure(InvalidPosition(pos))
      else
        var chars := lines[pos.line];
        if pos.character < 0 || pos.character > |chars| then Failure(InvalidPosition(pos))
        else
          var p := SpanStart(chars, env.cls, pos.character);
          var q := SpanEnd(chars, env.cls, pos.character);
          var cfgs := HoverConfigs(configs, files[uri].languageID);
          if |cfgs| == 0 then Success(None)
          else
            var config := cfgs[0];
            var word := chars[p..q];
            HoverFromRun(config, pos.line, p, q, env.run(HoverInvocation(config, word, fname, rootMarkers, rootPath, env)))
  }

  /**
   * What hover answers: an unknown document, a non-file URI and a position off the text
   * fail; no hover command gives no hover; otherwise the first config's command runs on the
   * word at the position, and a hover lies on the position's line over a span enclosing
   * the character, as markdown exactly when that config's hover type is "markdown".
   */
  lemma HoverOutcomes(files: map<DocumentURI, FileRef>, configs: map<string, seq<LsLanguage>>, rootMarkers: seq<string>,
                      rootPath: string, uri: DocumentURI, pos: Position, env: HoverEnv)
    ensures uri !in files ==> HoverOf(files, configs, rootMarkers, rootPath, uri, pos, env) == Failure(DocumentNotFound(uri))
    ensures uri in files && Paths.FromURI(uri).Success? && !LineValid(Split(files[uri].text, '\n'), pos.line) ==>
      HoverOf(files, configs, rootMarkers, rootPath, uri, pos, env) == Failure(InvalidPosition(pos))
    ensures uri in files && HoverConfigs(configs, files[uri].languageID) == [] ==>
      HoverOf(files, configs, rootMarkers, rootPath, uri, pos, env).Failure? || HoverOf(files, configs, rootMarkers, rootPath, uri, pos, env) == Success(None)
    ensures HoverOf(files, configs, rootMarkers, rootPath, uri, pos, env).Success? && HoverOf(files, configs, rootMarkers, rootPath, uri, pos, env).value.Some? ==>
      var hv := HoverOf(files, configs, rootMarkers, rootPath, uri, pos, env).value.value;
      && uri in files
      && |HoverConfigs(configs, files[uri].languageID)| > 0
      && hv.range.start.line == pos.line && hv.range.end.line == pos.line
      && hv.range.start.character <= pos.character <= hv.range.end.character
      && (hv.contents.kind == Markdown <==> HoverConfigs(configs, files[uri].languageID)[0].hoverType == "markdown")
    ensures uri in files && Paths.FromURI(uri).Failure? ==>
      HoverOf(files, configs, rootMarkers, rootPath, uri, pos, env) == Failure(InvalidURI(uri))
    ensures uri in files && Paths.FromURI(uri).Success? && LineValid(Split(files[uri].text, '\n'), pos.line) ==>
      var chars := Split(files[uri].text, '\n')[pos.line];
      var r := HoverOf(files, configs, rootMarkers, rootPath, uri, pos, env);
      var cfgs := HoverConfigs(configs, files[uri].languageID);
      && (pos.character < 0 || pos.character > |chars| ==> r == Failure(InvalidPosition(pos)))
      && (0 <= pos.character <= |chars| && cfgs == [] ==> r == Success(None))
      && (0 <= pos.character <= |chars| && cfgs != [] ==>
            var p := SpanStart(chars, env.cls, pos.character);
            var q := SpanEnd(chars, env.cls, pos.character);
            var run := env.run(HoverInvocation(cfgs[0], chars[p..q], Paths.FromURI(uri).value, rootMarkers, rootPath, env));
            && (run.FormatFailed? ==> r == Failure(CommandFailed(run.error)))
            && (run.FormatSucceeded? ==>
                  && r.Success? && r.value.Some?
                  && r.value.value.contents.value == TrimSpace(run.stdout)
                  && r.value.value.range == Range(Position(pos.line, p), Position(pos.line, q))))
  {
    if uri in files && Paths.FromURI(uri).Success? {
      var lines := Split(files[uri].text, '\n');
      if LineValid(lines, pos.line) && 0 <= pos.character <= |lines[pos.line]| {
        SpanSpec(files[uri].text, pos, env.cls);
      }
    }
  }

  /** One selection loop: the configs with a hover command. */
  method CollectHoverConfigs(cfgs: seq<LsLanguage>) returns (selected: seq<LsLanguage>)
    ensures selected == WithHoverCommand(cfgs)
  {
    selected := [];
    for i := 0 to |cfgs|
      invariant selected == WithHoverCommand(cfgs[..i])
    {
      assert cfgs[..i + 1][..i] == cfgs[..i];
      if cfgs[i].hoverCommand != "" {
        selected := selected + [cfgs[i]];
      }
    }
    assert cfgs[..|cfgs|] == cfgs;
  }

  /** The two selection loops of hover. */
  method SelectHoverConfigs(configs: map<string, seq<LsLanguage>>, langID: string) returns (selected: seq<LsLanguage>)
    ensures selected == HoverConfigs(configs, langID)
  {
    selected := [];
    if langID in configs {
      selected := CollectHoverConfigs(configs[langID]);
    }
    if Wildcard in configs {
      var wild := CollectHoverConfigs(configs[Wildcard]);
      selected := selected + wild;
    }
  }

  /**
   * hover. The config loop returns in its first iteration, since every selected config
   * has a hover command, so only the first config runs.
   */
  method HoverAt(h: LsHandler, uri: DocumentURI, pos: Position, env: HoverEnv) returns (r: Result<Option<Hover>, HoverError>)
    ensures r == HoverOf(h.files, h.configs, h.rootMarkers, h.rootPath, uri, pos, env)
  {
    if uri !in h.files {
      return Failure(DocumentNotFound(uri));
    }
    var f := h.files[uri];
    var path := Paths.FromURI(uri);
    if path.Failure? {
      return Failure(InvalidURI(uri));
    }
    var fname := path.value;
    var lines := Split(f.text, '\n');
    if pos.line < 0 || pos.line >= |lines| {
      return Failure(InvalidPosition(pos));
    }
    var chars := lines[pos.line];
    if pos.character < 0 || pos.character > |chars| {
      return Failure(InvalidPosition(pos));
    }
    var prevPos, currPos := HoverSpan(chars, pos.character, env.cls);
    var word := chars[prevPos..currPos];
    var configs := SelectHoverConfigs(h.configs, f.languageID);
    if |configs| == 0 {
      return Success(None);
    }
    var config := configs[0];
    var command := config.hoverCommand;
    if !config.hoverStdin && !Contains(command, "${INPUT}") {
      command := command + " ${INPUT}";
    }
    command := ReplaceAll(command, "${INPUT}", word);
    var stdin := if config.hoverStdin then Some(word) else None;
    var run := env.run(CoreLinting.Invocation(command, FindRootPath(env.fs, fname, config.base, h.rootMarkers, h.rootPath), config.base.env, stdin));
    if run.FormatFailed? {
      return Failure(CommandFailed(run.error));
    }
    var kind := PlainText;
    if config.hoverType == "markdown" {
      kind := Markdown;
    }
    return Success(Some(Hover(MarkupContent(kind, TrimSpace(run.stdout)), Range(Position(pos.line, prevPos), Position(pos.line, currPos)))));
  }
}
