/**
 * langserver/handle_text_document_symbol.go: document symbols from a symbol command's
 * output. Each output line is matched against every errorformat of the config, and each
 * match that names the document becomes a symbol at a zero-width range, its kind read from
 * a "kind!name" message.
 */
module LsSymbol {
  import opened Wrappers
  import opened Text
  import opened Types
  import opened CoreHandler
  import CoreLinting
  import opened LsServer

  /** symbolKindMap: the LSP SymbolKind numbers by lower-case name. */
  const SymbolKinds: map<string, int> := map[
    "file" := 1, "module" := 2, "namespace" := 3, "package" := 4, "class" := 5,
    "method" := 6, "property" := 7, "field" := 8, "constructor" := 9, "enum" := 10,
    "interface" := 11, "function" := 12, "variable" := 13, "constant" := 14, "string" := 15,
    "number" := 16, "boolean" := 17, "array" := 18, "object" := 19, "key" := 20,
    "null" := 21, "enummember" := 22, "struct" := 23, "event" := 24, "operator" := 25,
    "typeparameter" := 26]

  /** The config used when no config has a symbol command: ctags printing "file:line:1:kind!name". */
  const DefaultSymbolConfig: LsLanguage := LsLanguage(
    Language("", [], false, 0, 0, "", false, map[], "", 0, false, false, false, "", false, false, [], [], false),
    false, "ctags -x --_xformat=%{input}:%n:1:%K!%N", false, ["%f:%l:%c:%m"], "", false, "", false, "", [])

  /**
   * The world a symbol request sees: the directory tree and working directory, whether a
   * set of errorformats compiles, each command's combined output or failure, and the
   * match (if any) of one errorformat against one output line.
   */
  datatype SymbolEnv = SymbolEnv(
    fs: Paths.FileSystem,
    cwd: string,
    formatsOk: seq<string> -> bool,
    run: CoreLinting.Invocation -> FormatRun,
    matches: (string, string) -> Option<EfmMatch>)

  datatype SymbolContext = SymbolContext(
    uri: DocumentURI,
    fname: string,
    text: string,
    rootMarkers: seq<string>,
    rootPath: string,
    env: SymbolEnv)

  // ------------------------------------------------------------------ config selection

  /** The configs with a symbol command, in order. */
  function WithSymbolCommand(cfgs: seq<LsLanguage>): seq<LsLanguage>
    decreases |cfgs|
  {
    if |cfgs| == 0 then []
    else WithSymbolCommand(cfgs[..|cfgs| - 1]) + (if cfgs[|cfgs| - 1].symbolCommand != "" then [cfgs[|cfgs| - 1]] else [])
  }

  /** The language's configs with a symbol command, then the wildcard ones; the ctags default when there are none. */
  function SymbolConfigs(configs: map<string, seq<LsLanguage>>, langID: string): seq<LsLanguage> {
    var found := (if langID in configs then WithSymbolCommand(configs[langID]) else [])
                 + (if Wildcard in configs then WithSymbolCommand(configs[Wildcard]) else []);
    if |found| == 0 then [DefaultSymbolConfig] else found
  }

  lemma {:induction false} WithSymbolCommandMembers(cfgs: seq<LsLanguage>, c: LsLanguage)
    ensures c in WithSymbolCommand(cfgs) <==> c in cfgs && c.symbolCommand != ""
    decreases |cfgs|
  {
    if |cfgs| > 0 {
      WithSymbolCommandMembers(cfgs[..|cfgs| - 1], c);
      assert cfgs == cfgs[..|cfgs| - 1] + [cfgs[|cfgs| - 1]];
    }
  }

  /**
   * A config is chosen exactly when it has a symbol command and belongs to the language
   * or the wildcard; without any such config, the ctags default alone is chosen.
   */
  lemma SymbolConfigsMembers(configs: map<string, seq<LsLanguage>>, langID: string, c: LsLanguage)
    ensures |SymbolConfigs(configs, langID)| > 0
    ensures c.symbolCommand != "" && ((langID in configs && c in configs[langID]) || (Wildcard in configs && c in configs[Wildcard]))
      ==> c in SymbolConfigs(configs, langID)
    ensures c in SymbolConfigs(configs, langID) && c != DefaultSymbolConfig ==>
      c.symbolCommand != "" && ((langID in configs && c in configs[langID]) || (Wildcard in configs && c in configs[Wildcard]))
    ensures (forall d :: (langID in configs && d in configs[langID]) || (Wildcard in configs && d in configs[Wildcard]) ==> d.symbolCommand == "")
      ==> SymbolConfigs(configs, langID) == [DefaultSymbolConfig]
  {
    if langID in configs {
      WithSymbolCommandMembers(configs[langID], c);
    }
    if Wildcard in configs {
      WithSymbolCommandMembers(configs[Wildcard], c);
    }
    var x := if langID in configs then WithSymbolCommand(configs[langID]) else [];
    var y := if Wildcard in configs then WithSymbolCommand(configs[Wildcard]) else [];
    if |x| > 0 {
      WithSymbolCommandMembers(configs[langID], x[0]);
    }
    if |y| > 0 {
      WithSymbolCommandMembers(configs[Wildcard], y[0]);
    }
    forall d | (langID in configs && d in configs[langID]) || (Wildcard in configs && d in configs[Wildcard])
      ensures d.symbolCommand != "" ==> d in SymbolConfigs(configs, langID)
    {
      if langID in configs {
        WithSymbolCommandMembers(configs[langID], d);
      }
      if Wildcard in configs {
        WithSymbolCommandMembers(configs[Wildcard], d);
      }
    }
  }

  // ------------------------------------------------------------------ one match

  /** The default errorformats when the config has no lint formats: the symbol formats are not consulted. */
  function FormatsOf(config: LsLanguage): seq<string> {
    if |config.base.lintFormats| == 0 then CoreLinting.DefaultFormats else config.base.lintFormats
  }

  /** The symbol command: " ${INPUT}" appended unless piped or already present, then templated. */
  function SymbolCommandFor(config: LsLanguage, fname: string, rootPath: string): string {
    var command :=
      if !config.symbolStdin && !Contains(config.symbolCommand, "${INPUT}")
      then config.symbolCommand + " ${INPUT}" else config.symbolCommand;
    ReplaceCommandInputFilename(command, fname, rootPath)
  }

  function InvocationFor(ctx: SymbolContext, config: LsLanguage): CoreLinting.Invocation {
    CoreLinting.Invocation(
      SymbolCommandFor(config, ctx.fname, ctx.rootPath),
      FindRootPath(ctx.env.fs, ctx.fname, config.base, ctx.rootMarkers, ctx.rootPath),
      config.base.env,
      if config.symbolStdin then Some(ctx.text) else None)
  }

  /** The names a piped tool gives its input. */
  predicate StdinName(f: string) {
    f == "stdin" || f == "-" || f == "<text>"
  }

  /** The kind of a message: the lower-cased text before '!' when it names a kind, else "key". */
  function KindOf(message: string): int {
    var token := SplitN2(message, '!');
    if |token| == 2 && ToLower(token[0]) in SymbolKinds then SymbolKinds[ToLower(token[0])] else 20
  }

  /** The name of a message: the text after the first '!', or the whole message without one. */
  function NameOf(message: string): string {
    var token := SplitN2(message, '!');
    if |token| == 2 then token[1] else message
  }

  /** One match made a symbol, or nothing when its absolute path is not the document's. */
  function SymbolOf(ctx: SymbolContext, config: LsLanguage, m: EfmMatch): Option<SymbolInformation> {
    var f := if config.symbolStdin && StdinName(m.f) then ctx.fname else m.f;
    var c := if m.c == 0 then 1 else m.c;
    if Paths.Abs(ctx.env.cwd, f) != ctx.fname then None
    else
      var at := Position(m.l - 1 - config.base.lintOffset, c - 1);
      Some(SymbolInformation(NameOf(m.m), KindOf(m.m), Location(ctx.uri, Range(at, at))))
  }

  /**
   * Where a symbol sits and what it is called: at the document, at a zero-width range on
   * line L-1-LintOffset and column C-1 (column 0 read as 1), named by the text after the
   * first '!' (which follows a kind text without '!'), or by the whole message without one,
   * and of the listed kind or "key".
   */
  lemma SymbolOfSpec(ctx: SymbolContext, config: LsLanguage, m: EfmMatch)
    ensures SymbolOf(ctx, config, m).Some? <==>
      Paths.Abs(ctx.env.cwd, if config.symbolStdin && StdinName(m.f) then ctx.fname else m.f) == ctx.fname
    ensures SymbolOf(ctx, config, m).Some? ==>
      var s := SymbolOf(ctx, config, m).value;
      s.location.uri == ctx.uri
      && s.location.range.start == s.location.range.end
      && s.location.range.start.line == m.l - 1 - config.base.lintOffset
      && s.location.range.start.character == (if m.c == 0 then 0 else m.c - 1)
      && ('!' !in m.m ==> s.name == m.m && s.kind == 20)
      && ('!' in m.m ==> exists kind :: '!' !in kind && kind + "!" + s.name == m.m
                                       && s.kind == (if ToLower(kind) in SymbolKinds then SymbolKinds[ToLower(kind)] else 20))
  {
    var token := SplitN2(m.m, '!');
    if '!' in m.m {
      assert '!' !in token[0] && token[0] + "!" + token[1] == m.m;
    }
  }

  // ------------------------------------------------------------------ the scan

  /** The symbols of one output line: one per errorformat that matches it, in format order. */
  function LineSymbols(ctx: SymbolContext, config: LsLanguage, formats: seq<string>, line: string): seq<SymbolInformation>
    decreases |formats|
  {
    if |formats| == 0 then []
    else
      var m := ctx.env.matches(formats[|formats| - 1], line);
      var s := if m.Some? then SymbolOf(ctx, config, m.value) else None;
      LineSymbols(ctx, config, formats[..|formats| - 1], line) + (if s.Some? then [s.value] else [])
  }

  /** The symbols of the output lines, line by line. */
  function OutputSymbols(ctx: SymbolContext, config: LsLanguage, formats: seq<string>, lines: seq<string>): seq<SymbolInformation>
    decreases |lines|
  {
    if |lines| == 0 then []
    else OutputSymbols(ctx, config, formats, lines[..|lines| - 1]) + LineSymbols(ctx, config, formats, lines[|lines| - 1])
  }

  /** One config: invalid errorformats fail the request; a failing command contributes nothing. */
  function ConfigSymbols(ctx: SymbolContext, config: LsLanguage): Result<seq<SymbolInformation>, CoreLinting.LintError> {
    var formats := FormatsOf(config);
    if !ctx.env.formatsOk(formats) then Failure(CoreLinting.InvalidErrorFormat(config.symbolFormats))
    else match ctx.env.run(InvocationFor(ctx, config))
      case FormatFailed(_, _) => Success([])
      case FormatSucceeded(output) => Success(OutputSymbols(ctx, config, formats, ScanLines(output)))
  }

  /** The configs in order; the first failure ends the request. */
  function ConfigsSymbols(ctx: SymbolContext, configs: seq<LsLanguage>): Result<seq<SymbolInformation>, CoreLinting.LintError>
    decreases |configs|
  {
    if |configs| == 0 then Success([])
    else match ConfigsSymbols(ctx, configs[..|configs| - 1])
      case Failure(e) => Failure(e)
      case Success(earlier) =>
        match ConfigSymbols(ctx, configs[|configs| - 1])
        case Failure(e) => Failure(e)
        case Success(found) => Success(earlier + found)
  }

  /** A failure of the first i configs is the failure of them all. */
  lemma {:induction false} FailureKept(ctx: SymbolContext, configs: seq<LsLanguage>, i: nat)
    requires i <= |configs| && ConfigsSymbols(ctx, configs[..i]).Failure?
    ensures ConfigsSymbols(ctx, configs) == ConfigsSymbols(ctx, configs[..i])
    decreases |configs|
  {
    if i == |configs| {
      assert configs[..i] == configs;
    } else {
      var prefix := configs[..|configs| - 1];
      assert prefix[..i] == configs[..i];
      FailureKept(ctx, prefix, i);
    }
  }

  /** symbol: the document's symbols from every chosen config. */
  function Symbols(files: map<DocumentURI, FileRef>, configs: map<string, seq<LsLanguage>>, rootMarkers: seq<string>,
                   rootPath: string, uri: DocumentURI, env: SymbolEnv): Result<seq<SymbolInformation>, CoreLinting.LintError>
  {
    if uri !in files then Failure(CoreLinting.DocumentNotFound(uri))
    else match Paths.FromURI(uri)
      case Failure(_) => Failure(CoreLinting.InvalidURI(uri))
      case Success(fname) =>
        ConfigsSymbols(SymbolContext(uri, fname, files[uri].text, rootMarkers, rootPath, env),
                       SymbolConfigs(configs, files[uri].languageID))
  }

  /** Every symbol found lies in the document, at a zero-width range. */
  predicate AtDocument(uri: DocumentURI, symbols: seq<SymbolInformation>) {
    forall s :: s in symbols ==> s.location.uri == uri && s.location.range.start == s.location.range.end
  }

  lemma {:induction false} LineSymbolsAtDocument(ctx: SymbolContext, config: LsLanguage, formats: seq<string>, line: string)
    ensures AtDocument(ctx.uri, LineSymbols(ctx, config, formats, line))
    decreases |formats|
  {
    if |formats| > 0 {
      LineSymbolsAtDocument(ctx, config, formats[..|formats| - 1], line);
      var m := ctx.env.matches(formats[|formats| - 1], line);
      if m.Some? {
        SymbolOfSpec(ctx, config, m.value);
      }
    }
  }

  lemma {:induction false} OutputSymbolsAtDocument(ctx: SymbolContext, config: LsLanguage, formats: seq<string>, lines: seq<string>)
    ensures AtDocument(ctx.uri, OutputSymbols(ctx, config, formats, lines))
    decreases |lines|
  {
    if |lines| > 0 {
      OutputSymbolsAtDocument(ctx, config, formats, lines[..|lines| - 1]);
      LineSymbolsAtDocument(ctx, config, formats, lines[|lines| - 1]);
    }
  }

  lemma {:induction false} ConfigsSymbolsAtDocument(ctx: SymbolContext, configs: seq<LsLanguage>)
    ensures ConfigsSymbols(ctx, configs).Success? ==> AtDocument(ctx.uri, ConfigsSymbols(ctx, configs).value)
    decreases |configs|
  {
    if |configs| > 0 {
      ConfigsSymbolsAtDocument(ctx, configs[..|configs| - 1]);
      var config := configs[|configs| - 1];
      if ctx.env.formatsOk(FormatsOf(config)) {
        var run := ctx.env.run(InvocationFor(ctx, config));
        if run.FormatSucceeded? {
          OutputSymbolsAtDocument(ctx, config, FormatsOf(config), ScanLines(run.stdout));
        }
      }
    }
  }

  /**
   * The request's outcomes: an unknown document or a URI that is not a file fails, and
   * every symbol of a successful answer lies in the requested document at a zero-width range.
   */
  lemma SymbolsOutcomes(files: map<DocumentURI, FileRef>, configs: map<string, seq<LsLanguage>>, rootMarkers: seq<string>,
                        rootPath: string, uri: DocumentURI, env: SymbolEnv)
    ensures uri !in files ==> Symbols(files, configs, rootMarkers, rootPath, uri, env) == Failure(CoreLinting.DocumentNotFound(uri))
    ensures uri in files && Paths.FromURI(uri).Failure? ==>
      Symbols(files, configs, rootMarkers, rootPath, uri, env) == Failure(CoreLinting.InvalidURI(uri))
    ensures Symbols(files, configs, rootMarkers, rootPath, uri, env).Success? ==>
      AtDocument(uri, Symbols(files, configs, rootMarkers, rootPath, uri, env).value)
  {
    if uri in files && Paths.FromURI(uri).Success? {
      var ctx := SymbolContext(uri, Paths.FromURI(uri).value, files[uri].text, rootMarkers, rootPath, env);
      ConfigsSymbolsAtDocument(ctx, SymbolConfigs(configs, files[uri].languageID));
    }
  }

  // ------------------------------------------------------------------ the handler

  /** One selection loop: the configs with a symbol command. */
  method CollectSymbolConfigs(cfgs: seq<LsLanguage>) returns (selected: seq<LsLanguage>)
    ensures selected == WithSymbolCommand(cfgs)
  {
    selected := [];
    for i := 0 to |cfgs|
      invariant selected == WithSymbolCommand(cfgs[..i])
    {
      assert cfgs[..i + 1][..i] == cfgs[..i];
      if cfgs[i].symbolCommand != "" {
        selected := selected + [cfgs[i]];
      }
    }
    assert cfgs[..|cfgs|] == cfgs;
  }

  /** The inner loop: every errorformat tried on one line. */
  method MatchLine(ctx: SymbolContext, config: LsLanguage, formats: seq<string>, line: string) returns (found: seq<SymbolInformation>)
    ensures found == LineSymbols(ctx, config, formats, line)
  {
    found := [];
    for j := 0 to |formats|
      invariant found == LineSymbols(ctx, config, formats[..j], line)
    {
      assert formats[..j + 1][..j] == formats[..j];
      var m := ctx.env.matches(formats[j], line);
      if m.None? {
        continue;
      }
      var f := m.value.f;
      if config.symbolStdin && (f == "stdin" || f == "-" || f == "<text>") {
        f := ctx.fname;
      }
      var c := m.value.c;
      if c == 0 {
        c := 1;
      }
      var path := Paths.Abs(ctx.env.cwd, f);
      if path != ctx.fname {
        continue;
      }
      var token := SplitN2(m.value.m, '!');
      var kind := 20;
      if |token| == 2 {
        var name := ToLower(token[0]);
        if name in SymbolKinds {
          kind := SymbolKinds[name];
        }
      } else {
        token := ["", m.value.m];
      }
      var at := Position(m.value.l - 1 - config.base.lintOffset, c - 1);
      found := found + [SymbolInformation(token[1], kind, Location(ctx.uri, Range(at, at)))];
    }
    assert formats[..|formats|] == formats;
  }

  /** The scanner loop over a successful command's output. */
  method ParseOutput(ctx: SymbolContext, config: LsLanguage, formats: seq<string>, output: string) returns (symbols: seq<SymbolInformation>)
    ensures symbols == OutputSymbols(ctx, config, formats, ScanLines(output))
  {
    var lines := ScanLines(output);
    symbols := [];
    for i := 0 to |lines|
      invariant symbols == OutputSymbols(ctx, config, formats, lines[..i])
    {
      assert lines[..i + 1][..i] == lines[..i];
      var found := MatchLine(ctx, config, formats, lines[i]);
      symbols := symbols + found;
    }
    assert lines[..|lines|] == lines;
  }

  /** The body of the config loop. */
  method RunSymbolConfig(ctx: SymbolContext, config: LsLanguage) returns (r: Result<seq<SymbolInformation>, CoreLinting.LintError>)
    ensures r == ConfigSymbols(ctx, config)
  {
    var formats := config.base.lintFormats;
    if |formats| == 0 {
      formats := CoreLinting.DefaultFormats;
    }
    if !ctx.env.formatsOk(formats) {
      return Failure(CoreLinting.InvalidErrorFormat(config.symbolFormats));
    }
    var run := ctx.env.run(InvocationFor(ctx, config));
    if run.FormatFailed? {
      return Success([]);
    }
    var found := ParseOutput(ctx, config, formats, run.stdout);
    return Success(found);
  }

  /** symbol: select the configs, run each and collect the symbols of its output. */
  method Symbol(h: LsHandler, uri: DocumentURI, env: SymbolEnv) returns (r: Result<seq<SymbolInformation>, CoreLinting.LintError>)
    ensures r == Symbols(h.files, h.configs, h.rootMarkers, h.rootPath, uri, env)
  {
    if uri !in h.files {
      return Failure(CoreLinting.DocumentNotFound(uri));
    }
    var f := h.files[uri];
    var path := Paths.FromURI(uri);
    if path.Failure? {
      return Failure(CoreLinting.InvalidURI(uri));
    }
    var configs := SelectSymbolConfigs(h.configs, f.languageID);
    var ctx := SymbolContext(uri, path.value, f.text, h.rootMarkers, h.rootPath, env);
    r := RunSymbolConfigs(ctx, configs);
  }

  /** The selection loops, and the ctags default when they find nothing. */
  method SelectSymbolConfigs(configs: map<string, seq<LsLanguage>>, langID: string) returns (selected: seq<LsLanguage>)
    ensures selected == SymbolConfigs(configs, langID)
  {
    selected := [];
    if langID in configs {
      selected := CollectSymbolConfigs(configs[langID]);
    }
    if Wildcard in configs {
      var wild := CollectSymbolConfigs(configs[Wildcard]);
      selected := selected + wild;
    }
    if |selected| == 0 {
      selected := [DefaultSymbolConfig];
    }
  }

  /** The config loop: a failure is returned at once, otherwise the symbols accumulate. */
  method RunSymbolConfigs(ctx: SymbolContext, configs: seq<LsLanguage>) returns (r: Result<seq<SymbolInformation>, CoreLinting.LintError>)
    ensures r == ConfigsSymbols(ctx, configs)
  {
    var symbols: seq<SymbolInformation> := [];
    for i := 0 to |configs|
      invariant ConfigsSymbols(ctx, configs[..i]) == Success(symbols)
    {
      assert configs[..i + 1][..i] == configs[..i];
      var found := RunSymbolConfig(ctx, configs[i]);
      if found.Failure? {
        FailureKept(ctx, configs, i + 1);
        return Failure(found.error);
      }
      symbols := symbols + found.value;
    }
    assert configs[..|configs|] == configs;
    return Success(symbols);
  }
}
