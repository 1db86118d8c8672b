/**
 * langserver/handler.go: the oldest generation of the server. One config per language
 * id, with the "_" config as fallback; lint requests queued on a channel and answered by a
 * linter loop; formatting as a single whole-document edit; symbols from a ctags command.
 */
module LegacyHandler {
  import opened Wrappers
  import opened Text
  import opened Types
  import Paths
  import CoreLinting
  import LsSymbol
  import LsServer

  /** A language's settings in this generation. */
  datatype OldLanguage = OldLanguage(
    lintFormats: seq<string>,
    lintStdin: bool,
    lintOffset: int,
    lintCommand: string,
    lintIgnoreExitCode: bool,
    formatCommand: string,
    symbolCommand: string,
    completionCommand: string,
    hoverCommand: string,
    hoverStdin: bool,
    env: seq<string>)

  /** An open document: its language id and text. */
  datatype OldFile = OldFile(languageId: string, text: string)

  /** The language id whose config serves languages without one. */
  const Fallback: string := "_"

  /** The command symbol writes into a config that has none. */
  const DefaultSymbolCommand: string := "ctags -x --_xformat=%{input}:%n:1:%K!%N"

  /** The one errorformat symbol output is read with. */
  const SymbolFormat: string := "%f:%l:%c:%m"

  datatype Need = LintNeed | FormatNeed | SymbolNeed

  function CommandFor(c: OldLanguage, need: Need): string {
    match need
    case LintNeed => c.lintCommand
    case FormatNeed => c.formatCommand
    case SymbolNeed => c.symbolCommand
  }

  /** The config key a request uses: the language's when it has the command, else "_" when present. */
  function ConfigKey(configs: map<string, OldLanguage>, langID: string, need: Need): (k: Option<string>)
    ensures k.Some? ==> k.value in configs
  {
    if langID in configs && CommandFor(configs[langID], need) != "" then Some(langID)
    else if Fallback in configs then Some(Fallback) else None
  }

  /**
   * The config lint and format run with. One is found exactly when the language's or the
   * fallback's has the command; the language's own wins whenever it has one, and the one
   * found always has the command.
   */
  function Selected(configs: map<string, OldLanguage>, langID: string, need: Need): (c: Option<OldLanguage>)
    ensures c.Some? <==>
      (langID in configs && CommandFor(configs[langID], need) != "")
      || (Fallback in configs && CommandFor(configs[Fallback], need) != "")
    ensures c.Some? ==> CommandFor(c.value, need) != ""
    ensures langID in configs && CommandFor(configs[langID], need) != "" ==> c == Some(configs[langID])
    ensures !(langID in configs && CommandFor(configs[langID], need) != "") && c.Some? ==> c == Some(configs[Fallback])
  {
    match ConfigKey(configs, langID, need)
    case None => None
    case Some(k) => if CommandFor(configs[k], need) != "" then Some(configs[k]) else None
  }

  /** The command with the file name: every ${INPUT} replaced, or the name appended after a space. */
  function OldCommand(command: string, fname: string): string {
    if Contains(command, "${INPUT}") then ReplaceAll(command, "${INPUT}", fname) else command + " " + fname
  }

  /** A command without '$' is run with the file name as its last argument. */
  lemma OldCommandAppends(command: string, fname: string)
    requires '$' !in command
    ensures OldCommand(command, fname) == command + " " + fname
  {
    NotContainsWithoutFirst(command, "${INPUT}");
  }

  /** A command that is only the placeholder runs the file name itself. */
  lemma OldCommandReplaces(fname: string)
    ensures OldCommand("${INPUT}", fname) == fname
  {
    var command := "${INPUT}";
    assert HasPrefix(command, "${INPUT}");
    assert command[|"${INPUT}"|..] == "";
  }

  /** The world the handler sees: its working directory, the errorformat compiler and matcher, and each command's run. */
  datatype LegacyEnv = LegacyEnv(
    cwd: string,
    formatsOk: seq<string> -> bool,
    run: CoreLinting.Invocation -> CommandRun,
    matches: (string, string) -> Option<EfmMatch>)

  /**
   * A command's run: whether it exited successfully, the text of the error exec returned
   * when it did not (such as "exit status 1"), and its combined output.
   */
  datatype CommandRun = CommandRun(succeeded: bool, error: string, output: string)

  datatype LegacyError =
    | DocumentNotFound(uri: string)
    | NotSupported(languageId: string)
    | InvalidURI(uri: string)
    | InvalidErrorFormat(formats: seq<string>)
    | FormatterFailed(output: string)
    | SymbolFailed(error: string)

  // ------------------------------------------------------------------ lint

  /** The severity of a type letter: E, W, I and H in either case, and Error for anything else. */
  function SeverityOf(t: char): (s: int)
    ensures Error <= s <= Hint
    ensures s == Warning <==> t == 'W' || t == 'w'
    ensures s == Information <==> t == 'I' || t == 'i'
    ensures s == Hint <==> t == 'H' || t == 'h'
  {
    if t == 'E' || t == 'e' then Error
    else if t == 'W' || t == 'w' then Warning
    else if t == 'I' || t == 'i' then Information
    else if t == 'H' || t == 'h' then Hint
    else Error
  }

  /** The names a piped linter gives standard input in this generation. */
  predicate StdinName(f: string) {
    f == "stdin" || f == "-" || f == "<text>"
  }

  /**
   * One match made a diagnostic, or nothing when its absolute path is not the document's
   * (standard input read as the document for a piped linter): at line L-1-LintOffset and
   * column C-1, column 0 read as 1, on a zero-width range.
   */
  function MatchDiagnostic(config: OldLanguage, fname: string, cwd: string, m: EfmMatch): (d: Option<Diagnostic>)
    ensures d.Some? <==> Paths.Abs(cwd, if config.lintStdin && StdinName(m.f) then fname else m.f) == fname
    ensures d.Some? ==>
      && d.value.range.start == d.value.range.end
      && d.value.range.start == Position(m.l - 1 - config.lintOffset, if m.c == 0 then 0 else m.c - 1)
      && d.value.message == m.m && d.value.severity == SeverityOf(m.t)
  {
    var f := if config.lintStdin && StdinName(m.f) then fname else m.f;
    var c := if m.c == 0 then 1 else m.c;
    if Paths.Abs(cwd, f) != fname then None
    else
      var at := Position(m.l - 1 - config.lintOffset, c - 1);
      Some(Diagnostic(Range(at, at), SeverityOf(m.t), None, None, m.m))
  }

  /** The diagnostics of one output line: one per errorformat that matches it, in format order. */
  function LineDiagnostics(config: OldLanguage, fname: string, env: LegacyEnv, formats: seq<string>, line: string): seq<Diagnostic>
    decreases |formats|
  {
    if |formats| == 0 then []
    else
      var m := env.matches(formats[|formats| - 1], line);
      var d := if m.Some? then MatchDiagnostic(config, fname, env.cwd, m.value) else None;
      LineDiagnostics(config, fname, env, formats[..|formats| - 1], line) + (if d.Some? then [d.value] else [])
  }

  /** The diagnostics of the output's lines, in line order. */
  function OutputDiagnostics(config: OldLanguage, fname: string, env: LegacyEnv, formats: seq<string>, lines: seq<string>): seq<Diagnostic>
    decreases |lines|
  {
    if |lines| == 0 then []
    else OutputDiagnostics(config, fname, env, formats, lines[..|lines| - 1])
         + LineDiagnostics(config, fname, env, formats, lines[|lines| - 1])
  }

  /** The errorformats lint reads with: the configured ones, or the two defaults. */
  function LintFormatsOf(config: OldLanguage): seq<string> {
    if |config.lintFormats| == 0 then CoreLinting.DefaultFormats else config.lintFormats
  }

  /** The lint run: the command verbatim on stdin, or with the file name templated in. */
  function LintInvocation(config: OldLanguage, fname: string, text: string): CoreLinting.Invocation {
    CoreLinting.Invocation(
      if config.lintStdin then config.lintCommand else OldCommand(config.lintCommand, fname),
      "", config.env, if config.lintStdin then Some(text) else None)
  }

  /** lint */
  function LintOf(files: map<string, OldFile>, configs: map<string, OldLanguage>, uri: string, env: LegacyEnv)
    : Result<seq<Diagnostic>, LegacyError>
  {
    if uri !in files then Failure(DocumentNotFound(uri))
    else
      var f := files[uri];
      match Selected(configs, f.languageId, LintNeed)
      case None => Failure(NotSupported(f.languageId))
      case Some(config) =>
        match Paths.FromURI(uri)
        case Failure(_) => Failure(InvalidURI(uri))
        case Success(fname) =>
          var formats := LintFormatsOf(config);
          if !env.formatsOk(formats) then Failure(InvalidErrorFormat(config.lintFormats))
          else
            var run := env.run(LintInvocation(config, fname, f.text));
            if run.succeeded && !config.lintIgnoreExitCode then Success([])
            else Success(OutputDiagnostics(config, fname, env, formats, Split(run.output, '\n')))
  }

  /** Every diagnostic lies on a zero-width range, with a severity from Error to Hint. */
  predicate WellPlaced(diagnostics: seq<Diagnostic>) {
    forall d :: d in diagnostics ==> d.range.start == d.range.end && Error <= d.severity <= Hint
  }

  lemma {:induction false} LineDiagnosticsPlaced(config: OldLanguage, fname: string, env: LegacyEnv, formats: seq<string>, line: string)
    ensures WellPlaced(LineDiagnostics(config, fname, env, formats, line))
    decreases |formats|
  {
    if |formats| > 0 {
      LineDiagnosticsPlaced(config, fname, env, formats[..|formats| - 1], line);
    }
  }

  lemma {:induction false} OutputDiagnosticsPlaced(config: OldLanguage, fname: string, env: LegacyEnv, formats: seq<string>, lines: seq<string>)
    ensures WellPlaced(OutputDiagnostics(config, fname, env, formats, lines))
    decreases |lines|
  {
    if |lines| > 0 {
      OutputDiagnosticsPlaced(config, fname, env, formats, lines[..|lines| - 1]);
      LineDiagnosticsPlaced(config, fname, env, formats, lines[|lines| - 1]);
    }
  }

  /**
   * What lint answers: an unknown document fails, a language without a lint command (its
   * own or the fallback's) is not supported, a successful run without the ignore flag gives
   * no diagnostics, and every diagnostic is zero-width with a severity from Error to Hint.
   */
  lemma LintOutcomes(files: map<string, OldFile>, configs: map<string, OldLanguage>, uri: string, env: LegacyEnv)
    ensures uri !in files ==> LintOf(files, configs, uri, env) == Failure(DocumentNotFound(uri))
    ensures uri in files ==>
      (LintOf(files, configs, uri, env) == Failure(NotSupported(files[uri].languageId)) <==>
       !(files[uri].languageId in configs && configs[files[uri].languageId].lintCommand != "")
       && !(Fallback in configs && configs[Fallback].lintCommand != ""))
    ensures uri in files && Selected(configs, files[uri].languageId, LintNeed).Some? ==>
      var config := Selected(configs, files[uri].languageId, LintNeed).value;
      && Paths.FromURI(uri).Success? && env.formatsOk(LintFormatsOf(config))
      && env.run(LintInvocation(config, Paths.FromURI(uri).value, files[uri].text)).succeeded && !config.lintIgnoreExitCode
      ==> LintOf(files, configs, uri, env) == Success([])
    ensures LintOf(files, configs, uri, env).Success? ==> WellPlaced(LintOf(files, configs, uri, env).value)
  {
    if uri in files {
      var config := Selected(configs, files[uri].languageId, LintNeed);
      if config.Some? && Paths.FromURI(uri).Success? {
        var fname := Paths.FromURI(uri).value;
        var run := env.run(LintInvocation(config.value, fname, files[uri].text));
        OutputDiagnosticsPlaced(config.value, fname, env, LintFormatsOf(config.value), Split(run.output, '\n'));
      }
    }
  }

  // ------------------------------------------------------------------ format

  /**
   * The edit of a formatter's output: the whole text replaced from (0,0) to the line after
   * the last, at the last line's length, by the output without carriage returns.
   */
  function WholeEdit(text: string, output: string): TextEdit {
    var flines := Split(text, '\n');
    TextEdit(Range(Position(0, 0), Position(|flines|, |flines[|flines| - 1]|)), ReplaceAll(output, "\r", ""))
  }

  /** The format command with the file name filled in, fed the text, run in no particular directory. */
  function FormatInvocation(config: OldLanguage, fname: string, text: string): CoreLinting.Invocation {
    CoreLinting.Invocation(OldCommand(config.formatCommand, fname), "", config.env, Some(text))
  }

  /** formatFile */
  function FormatOf(files: map<string, OldFile>, configs: map<string, OldLanguage>, uri: string, env: LegacyEnv)
    : Result<seq<TextEdit>, LegacyError>
  {
    if uri !in files then Failure(DocumentNotFound(uri))
    else
      var f := files[uri];
      match Selected(configs, f.languageId, FormatNeed)
      case None => Failure(NotSupported(f.languageId))
      case Some(config) =>
        match Paths.FromURI(uri)
        case Failure(_) => Failure(InvalidURI(uri))
        case Success(fname) =>
          var run := env.run(FormatInvocation(config, fname, f.text));
          if !run.succeeded then Failure(FormatterFailed(run.output))
          else Success([WholeEdit(f.text, run.output)])
  }

  /**
   * What formatFile answers: an unknown document fails, a language without a format command
   * is not supported, a failing formatter fails with its output, and a successful one gives
   * a single edit from the start of the document past its last line, holding the output
   * without its carriage returns and with every other character of it, as often as there.
   */
  lemma FormatOutcomes(files: map<string, OldFile>, configs: map<string, OldLanguage>, uri: string, env: LegacyEnv)
    ensures uri !in files ==> FormatOf(files, configs, uri, env) == Failure(DocumentNotFound(uri))
    ensures uri in files ==>
      (FormatOf(files, configs, uri, env) == Failure(NotSupported(files[uri].languageId)) <==>
       !(files[uri].languageId in configs && configs[files[uri].languageId].formatCommand != "")
       && !(Fallback in configs && configs[Fallback].formatCommand != ""))
    ensures FormatOf(files, configs, uri, env).Success? ==>
      var edits := FormatOf(files, configs, uri, env).value;
      && |edits| == 1
      && edits[0].range.start == Position(0, 0)
      && edits[0].range.end.line == |Split(files[uri].text, '\n')|
      && '\r' !in edits[0].newText
    ensures uri in files && Selected(configs, files[uri].languageId, FormatNeed).Some? && Paths.FromURI(uri).Failure? ==>
      FormatOf(files, configs, uri, env) == Failure(InvalidURI(uri))
    ensures uri in files && Selected(configs, files[uri].languageId, FormatNeed).Some? && Paths.FromURI(uri).Success? ==>
      var text := files[uri].text;
      var run := env.run(FormatInvocation(Selected(configs, files[uri].languageId, FormatNeed).value, Paths.FromURI(uri).value, text));
      var r := FormatOf(files, configs, uri, env);
      && (!run.succeeded ==> r == Failure(FormatterFailed(run.output)))
      && (run.succeeded ==>
            && r.Success? && |r.value| == 1
            && r.value[0].newText == ReplaceAll(run.output, "\r", "")
            && r.value[0].range.end.character == |Split(text, '\n')[|Split(text, '\n')| - 1]|
            && |r.value[0].newText| == |run.output| - multiset(run.output)['\r']
            && forall x :: x != '\r' ==> multiset(r.value[0].newText)[x] == multiset(run.output)[x])
  {
    if uri in files {
      var config := Selected(configs, files[uri].languageId, FormatNeed);
      if config.Some? && Paths.FromURI(uri).Success? {
        var fname := Paths.FromURI(uri).value;
        var run := env.run(FormatInvocation(config.value, fname, files[uri].text));
        ReplaceCharGone(run.output, '\r', "");
        ReplaceCharDrops(run.output, '\r');
      }
    }
  }

  // ------------------------------------------------------------------ symbol

  /**
   * The configs after symbol: a chosen config without a symbol command has the default
   * written into it, since configs are shared pointers.
   */
  function SymbolConfigsAfter(files: map<string, OldFile>, configs: map<string, OldLanguage>, uri: string): map<string, OldLanguage> {
    if uri !in files then configs
    else match ConfigKey(configs, files[uri].languageId, SymbolNeed)
      case None => configs
      case Some(k) =>
        if configs[k].symbolCommand == "" then configs[k := configs[k].(symbolCommand := DefaultSymbolCommand)] else configs
  }

  /** One match made a symbol: named after the first '!', of the listed kind or "file". */
  function OldSymbolOf(uri: string, fname: string, cwd: string, offset: int, m: EfmMatch): Option<LsServer.SymbolInformation> {
    var c := if m.c == 0 then 1 else m.c;
    if Paths.Abs(cwd, m.f) != fname then None
    else
      var token := SplitN2(m.m, '!');
      if |token| != 2 then None
      else
        var kind := if ToLower(token[0]) in LsSymbol.SymbolKinds then LsSymbol.SymbolKinds[ToLower(token[0])] else LsSymbol.SymbolKinds["file"];
        var at := Position(m.l - 1 - offset, c - 1);
        Some(LsServer.SymbolInformation(token[1], kind, LsServer.Location(uri, Range(at, at))))
  }

  /** The symbols of the output's lines, each read with the one symbol errorformat. */
  function OldSymbols(uri: string, fname: string, env: LegacyEnv, offset: int, lines: seq<string>): seq<LsServer.SymbolInformation>
    decreases |lines|
  {
    if |lines| == 0 then []
    else
      var m := env.matches(SymbolFormat, lines[|lines| - 1]);
      var s := if m.Some? then OldSymbolOf(uri, fname, env.cwd, offset, m.value) else None;
      OldSymbols(uri, fname, env, offset, lines[..|lines| - 1]) + (if s.Some? then [s.value] else [])
  }

  /** symbol */
  function SymbolsOf(files: map<string, OldFile>, configs: map<string, OldLanguage>, uri: string, env: LegacyEnv)
    : Result<seq<LsServer.SymbolInformation>, LegacyError>
  {
    if uri !in files then Failure(DocumentNotFound(uri))
    else
      var f := files[uri];
      match ConfigKey(configs, f.languageId, SymbolNeed)
      case None => Failure(NotSupported(f.languageId))
      case Some(k) =>
        var config := SymbolConfigsAfter(files, configs, uri)[k];
        match Paths.FromURI(uri)
        case Failure(_) => Failure(InvalidURI(uri))
        case Success(fname) =>
          var run := env.run(CoreLinting.Invocation(OldCommand(config.symbolCommand, fname), "", config.env, None));
          if !run.succeeded then Failure(SymbolFailed(run.error))
          else Success(OldSymbols(uri, fname, env, config.lintOffset, ScanLines(run.output)))
  }

  /**
   * A symbol is made from a match at the document whose message has a '!': it is named by
   * the text after the first '!', sits at the document on a zero-width range at line
   * L-1-LintOffset and column C-1 (column 0 read as 1), and has the kind named before the
   * '!' or "file".
   */
  lemma OldSymbolOfSpec(uri: string, fname: string, cwd: string, offset: int, m: EfmMatch)
    ensures OldSymbolOf(uri, fname, cwd, offset, m).Some? <==> Paths.Abs(cwd, m.f) == fname && '!' in m.m
    ensures OldSymbolOf(uri, fname, cwd, offset, m).Some? ==>
      var s := OldSymbolOf(uri, fname, cwd, offset, m).value;
      && s.location.uri == uri
      && s.location.range.start == s.location.range.end
      && s.location.range.start == Position(m.l - 1 - offset, if m.c == 0 then 0 else m.c - 1)
      && exists kind :: '!' !in kind && kind + "!" + s.name == m.m
           && s.kind == (if ToLower(kind) in LsSymbol.SymbolKinds then LsSymbol.SymbolKinds[ToLower(kind)] else 1)
  {
    var token := SplitN2(m.m, '!');
    if '!' in m.m {
      assert '!' !in token[0] && token[0] + "!" + token[1] == m.m;
    }
  }

  lemma {:induction false} OldSymbolsAtDocument(uri: string, fname: string, env: LegacyEnv, offset: int, lines: seq<string>)
    ensures LsSymbol.AtDocument(uri, OldSymbols(uri, fname, env, offset, lines))
    decreases |lines|
  {
    if |lines| > 0 {
      OldSymbolsAtDocument(uri, fname, env, offset, lines[..|lines| - 1]);
      var m := env.matches(SymbolFormat, lines[|lines| - 1]);
      if m.Some? {
        OldSymbolOfSpec(uri, fname, env.cwd, offset, m.value);
      }
    }
  }

  /**
   * What symbol answers and leaves behind: an unknown document fails and a language without
   * its own symbol command or a fallback config is not supported, both leaving the configs
   * alone; otherwise the chosen config holds a symbol command afterwards, no other config
   * changes, a failing command fails with the error exec returned, and every symbol lies at
   * the document on a zero-width range.
   */
  lemma SymbolOutcomes(files: map<string, OldFile>, configs: map<string, OldLanguage>, uri: string, env: LegacyEnv)
    ensures uri !in files ==> SymbolsOf(files, configs, uri, env) == Failure(DocumentNotFound(uri))
    ensures uri in files && ConfigKey(configs, files[uri].languageId, SymbolNeed).None? ==>
      SymbolsOf(files, configs, uri, env) == Failure(NotSupported(files[uri].languageId))
      && SymbolConfigsAfter(files, configs, uri) == configs
    ensures uri in files && ConfigKey(configs, files[uri].languageId, SymbolNeed).Some? ==>
      var k := ConfigKey(configs, files[uri].languageId, SymbolNeed).value;
      var after := SymbolConfigsAfter(files, configs, uri);
      && after.Keys == configs.Keys
      && after[k].symbolCommand != ""
      && (configs[k].symbolCommand != "" ==> after == configs)
      && (forall j :: j in configs && j != k ==> after[j] == configs[j])
    ensures uri in files && ConfigKey(configs, files[uri].languageId, SymbolNeed).Some? && Paths.FromURI(uri).Success? ==>
      var config := SymbolConfigsAfter(files, configs, uri)[ConfigKey(configs, files[uri].languageId, SymbolNeed).value];
      var run := env.run(CoreLinting.Invocation(OldCommand(config.symbolCommand, Paths.FromURI(uri).value), "", config.env, None));
      !run.succeeded ==> SymbolsOf(files, configs, uri, env) == Failure(SymbolFailed(run.error))
    ensures SymbolsOf(files, configs, uri, env).Success? ==>
      LsSymbol.AtDocument(uri, SymbolsOf(files, configs, uri, env).value)
  {
    var r := SymbolsOf(files, configs, uri, env);
    if r.Success? {
      var k := ConfigKey(configs, files[uri].languageId, SymbolNeed).value;
      var config := SymbolConfigsAfter(files, configs, uri)[k];
      var fname := Paths.FromURI(uri).value;
      var run := env.run(CoreLinting.Invocation(OldCommand(config.symbolCommand, fname), "", config.env, None));
      OldSymbolsAtDocument(uri, fname, env, config.lintOffset, ScanLines(run.output));
    }
  }

  // ------------------------------------------------------------------ the handler

  /** What the linter loop publishes for one request. */
  datatype Published = Published(uri: string, diagnostics: seq<Diagnostic>)

  class OldHandler {
    var configs: map<string, OldLanguage>
    var files: map<string, OldFile>
    /** The URIs sent on the request channel and not yet taken by the linter loop. */
    var requests: seq<string>
    var rootPath: string

    /** NewHandler */
    constructor (languages: map<string, OldLanguage>)
      ensures configs == languages && files == map[] && requests == [] && rootPath == ""
    {
      configs := languages;
      files := map[];
      requests := [];
      rootPath := "";
    }

    /** openFile: the document is stored with its language id and an empty text. */
    method OpenFile(uri: string, languageId: string)
      modifies this`files
      ensures files == old(files)[uri := OldFile(languageId, "")]
    {
      files := files[uri := OldFile(languageId, "")];
    }

    /** updateFile: an unknown document fails; otherwise its text is replaced and a lint requested. */
    method UpdateFile(uri: string, text: string) returns (err: Option<LegacyError>)
      modifies this`files, this`requests
      ensures uri !in old(files) ==> err == Some(DocumentNotFound(uri)) && files == old(files) && requests == old(requests)
      ensures uri in old(files) ==>
        err.None? && files == old(files)[uri := old(files)[uri].(text := text)] && requests == old(requests) + [uri]
    {
      if uri !in files {
        return Some(DocumentNotFound(uri));
      }
      files := files[uri := files[uri].(text := text)];
      requests := requests + [uri];
      return None;
    }

    /** closeFile */
    method CloseFile(uri: string)
      modifies this`files
      ensures files == old(files) - {uri}
    {
      files := files - {uri};
    }

    /** saveFile: a lint is requested. */
    method SaveFile(uri: string)
      modifies this`requests
      ensures requests == old(requests) + [uri]
    {
      requests := requests + [uri];
    }

    /** The inner loop of lint over the errorformats, for one output line. */
    static method MatchLine(config: OldLanguage, fname: string, env: LegacyEnv, formats: seq<string>, line: string)
      returns (found: seq<Diagnostic>)
      ensures found == LineDiagnostics(config, fname, env, formats, line)
    {
      found := [];
      for i := 0 to |formats|
        invariant found == LineDiagnostics(config, fname, env, formats[..i], line)
      {
        assert formats[..i + 1][..i] == formats[..i];
        var m := env.matches(formats[i], line);
        if m.None? {
          continue;
        }
        var f := m.value.f;
        if config.lintStdin && (f == "stdin" || f == "-" || f == "<text>") {
          f := fname;
        }
        var c := m.value.c;
        if c == 0 {
          c := 1;
        }
        var path := Paths.Abs(env.cwd, f);
        if path != fname {
          continue;
        }
        var severity := 1;
        if m.value.t == 'E' || m.value.t == 'e' {
          severity := 1;
        } else if m.value.t == 'W' || m.value.t == 'w' {
          severity := 2;
        } else if m.value.t == 'I' || m.value.t == 'i' {
          severity := 3;
        } else if m.value.t == 'H' || m.value.t == 'h' {
          severity := 4;
        }
        var at := Position(m.value.l - 1 - config.lintOffset, c - 1);
        found := found + [Diagnostic(Range(at, at), severity, None, None, m.value.m)];
      }
      assert formats[..|formats|] == formats;
    }

    /** The outer loop of lint over the output's lines. */
    static method ParseLint(config: OldLanguage, fname: string, env: LegacyEnv, formats: seq<string>, lines: seq<string>)
      returns (diagnostics: seq<Diagnostic>)
      ensures diagnostics == OutputDiagnostics(config, fname, env, formats, lines)
    {
      diagnostics := [];
      for i := 0 to |lines|
        invariant diagnostics == OutputDiagnostics(config, fname, env, formats, lines[..i])
      {
        assert lines[..i + 1][..i] == lines[..i];
        var found := MatchLine(config, fname, env, formats, lines[i]);
        diagnostics := diagnostics + found;
      }
      assert lines[..|lines|] == lines;
    }

    /** The config lookup with the "_" fallback, shared by lint, formatFile and symbol. */
    static method LookupConfig(configs: map<string, OldLanguage>, langID: string, need: Need) returns (k: Option<string>)
      ensures k == ConfigKey(configs, langID, need)
    {
      if langID in configs && CommandFor(configs[langID], need) != "" {
        return Some(langID);
      }
      if Fallback !in configs {
        return None;
      }
      return Some(Fallback);
    }

    /** lint */
    method Lint(uri: string, env: LegacyEnv) returns (r: Result<seq<Diagnostic>, LegacyError>)
      ensures r == LintOf(files, configs, uri, env)
    {
      if uri !in files {
        return Failure(DocumentNotFound(uri));
      }
      var f := files[uri];
      var k := LookupConfig(configs, f.languageId, LintNeed);
      if k.None? {
        return Failure(NotSupported(f.languageId));
      }
      var config := configs[k.value];
      if config.lintCommand == "" {
        return Failure(NotSupported(f.languageId));
      }
      var path := Paths.FromURI(uri);
      if path.Failure? {
        return Failure(InvalidURI(uri));
      }
      var fname := path.value;
      var command;
      if config.lintStdin {
        command := config.lintCommand;
      } else if Contains(config.lintCommand, "${INPUT}") {
        command := ReplaceAll(config.lintCommand, "${INPUT}", fname);
      } else {
        command := config.lintCommand + " " + fname;
      }
      var formats := config.lintFormats;
      if |formats| == 0 {
        formats := ["%f:%l:%m", "%f:%l:%c:%m"];
      }
      if !env.formatsOk(formats) {
        return Failure(InvalidErrorFormat(config.lintFormats));
      }
      var stdin := if config.lintStdin then Some(f.text) else None;
      var run := env.run(CoreLinting.Invocation(command, "", config.env, stdin));
      if run.succeeded && !config.lintIgnoreExitCode {
        return Success([]);
      }
      var diagnostics := ParseLint(config, fname, env, formats, Split(run.output, '\n'));
      return Success(diagnostics);
    }

    /**
     * One turn of the linter loop: the oldest request is taken and linted; its diagnostics
     * are published, and a failed lint publishes nothing. With no request the loop waits.
     */
    method LinterStep(env: LegacyEnv) returns (published: Option<Published>)
      modifies this`requests
      ensures old(requests) == [] ==> published.None? && requests == []
      ensures old(requests) != [] ==>
        && requests == old(requests)[1..]
        && var r := LintOf(files, configs, old(requests)[0], env);
           published == if r.Success? then Some(Published(old(requests)[0], r.value)) else None
    {
      if requests == [] {
        return None;
      }
      var uri := requests[0];
      requests := requests[1..];
      var r := Lint(uri, env);
      if r.Failure? {
        return None;
      }
      return Some(Published(uri, r.value));
    }

    /** formatFile */
    method FormatFile(uri: string, env: LegacyEnv) returns (r: Result<seq<TextEdit>, LegacyError>)
      ensures r == FormatOf(files, configs, uri, env)
    {
      if uri !in files {
        return Failure(DocumentNotFound(uri));
      }
      var f := files[uri];
      var k := LookupConfig(configs, f.languageId, FormatNeed);
      if k.None? {
        return Failure(NotSupported(f.languageId));
      }
      var config := configs[k.value];
      if config.formatCommand == "" {
        return Failure(NotSupported(f.languageId));
      }
      var path := Paths.FromURI(uri);
      if path.Failure? {
        return Failure(InvalidURI(uri));
      }
      var fname := path.value;
      var command;
      if Contains(config.formatCommand, "${INPUT}") {
        command := ReplaceAll(config.formatCommand, "${INPUT}", fname);
      } else {
        command := config.formatCommand + " " + fname;
      }
      var run := env.run(CoreLinting.Invocation(command, "", config.env, Some(f.text)));
      if !run.succeeded {
        return Failure(FormatterFailed(run.output));
      }
      var text := ReplaceAll(run.output, "\r", "");
      var flines := Split(f.text, '\n');
      return Success([TextEdit(Range(Position(0, 0), Position(|flines|, |flines[|flines| - 1]|)), text)]);
    }

    /** The scanner loop of symbol, each line read with the one symbol errorformat. */
    static method ParseSymbols(uri: string, fname: string, env: LegacyEnv, offset: int, lines: seq<string>)
      returns (symbols: seq<LsServer.SymbolInformation>)
      ensures symbols == OldSymbols(uri, fname, env, offset, lines)
    {
      symbols := [];
      for i := 0 to |lines|
        invariant symbols == OldSymbols(uri, fname, env, offset, lines[..i])
      {
        assert lines[..i + 1][..i] == lines[..i];
        var m := env.matches(SymbolFormat, lines[i]);
        if m.Some? {
          var s := SymbolOfMatch(uri, fname, env.cwd, offset, m.value);
          if s.Some? {
            symbols := symbols + [s.value];
          }
        }
      }
      assert lines[..|lines|] == lines;
    }

    /** The body of the scanner loop for one matched line. */
    static method SymbolOfMatch(uri: string, fname: string, cwd: string, offset: int, m: EfmMatch)
      returns (s: Option<LsServer.SymbolInformation>)
      ensures s == OldSymbolOf(uri, fname, cwd, offset, m)
    {
      var c := m.c;
      if c == 0 {
        c := 1;
      }
      var path := Paths.Abs(cwd, m.f);
      if path != fname {
        return None;
      }
      var token := SplitN2(m.m, '!');
      if |token| != 2 {
        return None;
      }
      var kind := LsSymbol.SymbolKinds["file"];
      if ToLower(token[0]) in LsSymbol.SymbolKinds {
        kind := LsSymbol.SymbolKinds[ToLower(token[0])];
      }
      var at := Position(m.l - 1 - offset, c - 1);
      return Some(LsServer.SymbolInformation(token[1], kind, LsServer.Location(uri, Range(at, at))));
    }

    /** symbol: a chosen config without a symbol command gets the ctags default written into it. */
    method Symbol(uri: string, env: LegacyEnv) returns (r: Result<seq<LsServer.SymbolInformation>, LegacyError>)
      modifies this`configs
      ensures r == SymbolsOf(old(files), old(configs), uri, env)
      ensures configs == SymbolConfigsAfter(old(files), old(configs), uri)
    {
      if uri !in files {
        return Failure(DocumentNotFound(uri));
      }
      var f := files[uri];
      var k := LookupConfig(configs, f.languageId, SymbolNeed);
      if k.None? {
        return Failure(NotSupported(f.languageId));
      }
      if configs[k.value].symbolCommand == "" {
        configs := configs[k.value := configs[k.value].(symbolCommand := DefaultSymbolCommand)];
      }
      var config := configs[k.value];
      var path := Paths.FromURI(uri);
      if path.Failure? {
        return Failure(InvalidURI(uri));
      }
      var fname := path.value;
      var command;
      if Contains(config.symbolCommand, "${INPUT}") {
        command := ReplaceAll(config.symbolCommand, "${INPUT}", fname);
      } else {
        command := config.symbolCommand + " " + fname;
      }
      var run := env.run(CoreLinting.Invocation(command, "", config.env, None));
      if !run.succeeded {
        return Failure(SymbolFailed(run.error));
      }
      var symbols := ParseSymbols(uri, fname, env, config.lintOffset, ScanLines(run.output));
      return Success(symbols);
    }
  }
}
