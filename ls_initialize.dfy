/**
 * langserver/handle_initialize.go: the langserver's initialize. It takes the root path and
 * first workspace folder from the root URI and announces a feature whenever the client's
 * option asks for it or some config has the command that serves it.
 */
module LsInitialize {
  import opened Wrappers
  import opened Types
  import opened CoreHandler
  import opened LsServer

  /** The initialization options the handler reads. */
  datatype LsInitOptions = LsInitOptions(
    completion: bool,
    hover: bool,
    codeAction: bool,
    documentSymbol: bool,
    documentFormatting: bool)

  datatype LsInitParams = LsInitParams(rootURI: DocumentURI, initializationOptions: LsInitOptions)

  datatype CompletionProvider = CompletionProvider(triggerCharacters: seq<string>)

  datatype LsCapabilities = LsCapabilities(
    textDocumentSync: int,
    documentFormattingProvider: bool,
    documentSymbolProvider: bool,
    definitionProvider: bool,
    completionProvider: Option<CompletionProvider>,
    hoverProvider: bool,
    codeActionProvider: bool,
    workspaceFoldersSupported: bool,
    workspaceFoldersChangeNotifications: bool)

  datatype InitError = InvalidParams | InvalidRootURI(message: string)

  /** The features a config's command can serve. */
  datatype Feature = CompletionFeature | HoverFeature | SymbolFeature | FormatFeature

  function CommandOf(v: LsLanguage, f: Feature): string {
    match f
    case CompletionFeature => v.completionCommand
    case HoverFeature => v.hoverCommand
    case SymbolFeature => v.symbolCommand
    case FormatFeature => v.base.formatCommand
  }

  /** Some config among the first n has the feature's command. */
  predicate HasCommand(langs: seq<LsLanguage>, n: int, f: Feature) {
    exists i :: 0 <= i < n && i < |langs| && CommandOf(langs[i], f) != ""
  }

  /** Some language of the given keys has a config with the feature's command. */
  predicate CommandIn(configs: map<string, seq<LsLanguage>>, keys: set<string>, f: Feature) {
    exists k :: k in keys && k in configs && HasCommand(configs[k], |configs[k]|, f)
  }

  /** The trigger characters announced: the configured ones, or "." when none are. */
  function TriggerCharacters(triggerChars: seq<string>): seq<string> {
    if |triggerChars| > 0 then triggerChars else ["."]
  }

  /**
   * The capabilities initialize announces: full sync, workspace folders with change
   * notifications, definition when it is enabled and ctags is on the path, code actions
   * when asked or any command is configured, and completion, hover, symbols and formatting
   * when asked or any config has the command.
   */
  function Announced(configs: map<string, seq<LsLanguage>>, commands: seq<Command>, provideDefinition: bool,
                     ctagsFound: bool, triggerChars: seq<string>, opts: LsInitOptions): LsCapabilities
  {
    var completion := opts.completion || CommandIn(configs, configs.Keys, CompletionFeature);
    LsCapabilities(
      TDSKFull,
      opts.documentFormatting || CommandIn(configs, configs.Keys, FormatFeature),
      opts.documentSymbol || CommandIn(configs, configs.Keys, SymbolFeature),
      provideDefinition && ctagsFound,
      if completion then Some(CompletionProvider(TriggerCharacters(triggerChars))) else None,
      opts.hover || CommandIn(configs, configs.Keys, HoverFeature),
      opts.codeAction || |commands| > 0,
      true,
      true)
  }

  /** A feature is configured exactly when some config of some language has its command. */
  lemma CommandInMembers(configs: map<string, seq<LsLanguage>>, f: Feature)
    ensures CommandIn(configs, configs.Keys, f) <==>
      exists k: string, v: LsLanguage :: k in configs && v in configs[k] && CommandOf(v, f) != ""
  {
    if CommandIn(configs, configs.Keys, f) {
      var k: string :| k in configs && HasCommand(configs[k], |configs[k]|, f);
      var i: int :| 0 <= i < |configs[k]| && CommandOf(configs[k][i], f) != "";
      assert configs[k][i] in configs[k];
    }
    if exists k: string, v: LsLanguage :: k in configs && v in configs[k] && CommandOf(v, f) != "" {
      var k: string, v: LsLanguage :| k in configs && v in configs[k] && CommandOf(v, f) != "";
      var i: int :| 0 <= i < |configs[k]| && configs[k][i] == v;
      assert HasCommand(configs[k], |configs[k]|, f);
    }
  }

  /**
   * A completion provider is announced exactly when the option asks for it or some config
   * has a completion command, and it always carries at least one trigger character: the
   * configured ones, or ".".
   */
  lemma CompletionAnnounced(configs: map<string, seq<LsLanguage>>, commands: seq<Command>, provideDefinition: bool,
                            ctagsFound: bool, triggerChars: seq<string>, opts: LsInitOptions)
    ensures var caps := Announced(configs, commands, provideDefinition, ctagsFound, triggerChars, opts);
      && (caps.completionProvider.Some? <==>
            opts.completion || exists k: string, v: LsLanguage :: k in configs && v in configs[k] && v.completionCommand != "")
      && (caps.completionProvider.Some? ==> |caps.completionProvider.value.triggerCharacters| > 0)
      && (caps.completionProvider.Some? && |triggerChars| > 0 ==> caps.completionProvider.value.triggerCharacters == triggerChars)
  {
    CommandInMembers(configs, CompletionFeature);
    var caps := Announced(configs, commands, provideDefinition, ctagsFound, triggerChars, opts);
    if (exists k: string, v: LsLanguage :: k in configs && v in configs[k] && v.completionCommand != "") {
      var k: string, v: LsLanguage :| k in configs && v in configs[k] && v.completionCommand != "";
      assert CommandOf(v, CompletionFeature) != "";
    }
  }

  /**
   * The langserver announces document formatting exactly when the core's initialize would
   * for the same format commands and document-formatting option.
   */
  lemma FormattingAsCore(configs: map<string, seq<LsLanguage>>, commands: seq<Command>, provideDefinition: bool,
                         ctagsFound: bool, triggerChars: seq<string>, opts: LsInitOptions)
    ensures Announced(configs, commands, provideDefinition, ctagsFound, triggerChars, opts).documentFormattingProvider
      == Capabilities(BaseConfigs(configs), Some(InitializeOptions(opts.documentFormatting, false))).documentFormattingProvider
  {
    var bases: map<string, seq<Language>> := BaseConfigs(configs);
    if CommandIn(configs, configs.Keys, FormatFeature) {
      var k: string :| k in configs && HasCommand(configs[k], |configs[k]|, FormatFeature);
      var i: int :| 0 <= i < |configs[k]| && CommandOf(configs[k][i], FormatFeature) != "";
      assert bases[k][i].formatCommand != "";
      assert AnyFormatter(bases[k], |bases[k]|);
    }
    if FormatterIn(bases, bases.Keys) {
      var k: string :| k in bases && AnyFormatter(bases[k], |bases[k]|);
      var i: int :| 0 <= i < |bases[k]| && bases[k][i].formatCommand != "";
      assert CommandOf(configs[k][i], FormatFeature) != "";
      assert HasCommand(configs[k], |configs[k]|, FormatFeature);
    }
  }

  lemma CommandInAdd(configs: map<string, seq<LsLanguage>>, keys: set<string>, key: string, f: Feature)
    requires key in configs
    ensures CommandIn(configs, keys + {key}, f) == (CommandIn(configs, keys, f) || HasCommand(configs[key], |configs[key]|, f))
  {
  }

  // ------------------------------------------------------------------ the handler

  /** The inner loop of initialize over one language's configs. */
  method ScanLanguage(langs: seq<LsLanguage>) returns (completion: bool, hover: bool, symbol: bool, format: bool)
    ensures completion == HasCommand(langs, |langs|, CompletionFeature)
    ensures hover == HasCommand(langs, |langs|, HoverFeature)
    ensures symbol == HasCommand(langs, |langs|, SymbolFeature)
    ensures format == HasCommand(langs, |langs|, FormatFeature)
  {
    completion, hover, symbol, format := false, false, false, false;
    for j := 0 to |langs|
      invariant completion == HasCommand(langs, j, CompletionFeature)
      invariant hover == HasCommand(langs, j, HoverFeature)
      invariant symbol == HasCommand(langs, j, SymbolFeature)
      invariant format == HasCommand(langs, j, FormatFeature)
    {
      var v := langs[j];
      if v.completionCommand != "" {
        completion := true;
      }
      if v.hoverCommand != "" {
        hover := true;
      }
      if v.symbolCommand != "" {
        symbol := true;
      }
      if v.base.formatCommand != "" {
        format := true;
      }
      assert CommandOf(v, CompletionFeature) == v.completionCommand;
      assert CommandOf(v, HoverFeature) == v.hoverCommand;
      assert CommandOf(v, SymbolFeature) == v.symbolCommand;
      assert CommandOf(v, FormatFeature) == v.base.formatCommand;
    }
  }

  /** The outer loop of initialize: which features some config of some language has a command for. */
  method ScanConfigs(configs: map<string, seq<LsLanguage>>) returns (completion: bool, hover: bool, symbol: bool, format: bool)
    ensures completion == CommandIn(configs, configs.Keys, CompletionFeature)
    ensures hover == CommandIn(configs, configs.Keys, HoverFeature)
    ensures symbol == CommandIn(configs, configs.Keys, SymbolFeature)
    ensures format == CommandIn(configs, configs.Keys, FormatFeature)
  {
    completion, hover, symbol, format := false, false, false, false;
    var pending := configs.Keys;
    ghost var done: set<string> := {};
    while pending != {}
      invariant pending <= configs.Keys && done == configs.Keys - pending
      invariant completion == CommandIn(configs, done, CompletionFeature)
      invariant hover == CommandIn(configs, done, HoverFeature)
      invariant symbol == CommandIn(configs, done, SymbolFeature)
      invariant format == CommandIn(configs, done, FormatFeature)
      decreases |pending|
    {
      var key :| key in pending;
      var c, hv, sy, fo := ScanLanguage(configs[key]);
      CommandInAdd(configs, done, key, CompletionFeature);
      CommandInAdd(configs, done, key, HoverFeature);
      CommandInAdd(configs, done, key, SymbolFeature);
      CommandInAdd(configs, done, key, FormatFeature);
      completion, hover, symbol, format := completion || c, hover || hv, symbol || sy, format || fo;
      pending := pending - {key};
      done := done + {key};
    }
  }

  /** The capability computation of initialize. */
  method ComputeCapabilities(configs: map<string, seq<LsLanguage>>, commands: seq<Command>, provideDefinition: bool,
                             ctagsFound: bool, triggerChars: seq<string>, opts: LsInitOptions)
    returns (caps: LsCapabilities)
    ensures caps == Announced(configs, commands, provideDefinition, ctagsFound, triggerChars, opts)
  {
    var hasCodeActionCommand := opts.codeAction;
    var hasDefinitionCommand := false;
    if |commands| > 0 {
      hasCodeActionCommand := true;
    }
    if provideDefinition {
      if ctagsFound {
        hasDefinitionCommand := true;
      }
    }
    var c, hv, sy, fo := ScanConfigs(configs);
    var hasCompletionCommand := opts.completion || c;
    var completion := CompletionOption(hasCompletionCommand, triggerChars);
    caps := LsCapabilities(TDSKFull, opts.documentFormatting || fo, opts.documentSymbol || sy, hasDefinitionCommand, completion,
                           opts.hover || hv, hasCodeActionCommand, true, true);
  }

  /** The completion provider announced: the trigger characters when completion is on. */
  method CompletionOption(hasCompletionCommand: bool, triggerChars: seq<string>) returns (completion: Option<CompletionProvider>)
    ensures completion.Some? <==> hasCompletionCommand
    ensures completion.Some? ==> completion.value.triggerCharacters == TriggerCharacters(triggerChars)
  {
    completion := None;
    if hasCompletionCommand {
      var chars := ["."];
      if |triggerChars| > 0 {
        chars := triggerChars;
      }
      completion := Some(CompletionProvider(chars));
    }
  }

  /**
   * handleInitialize. Missing parameters are refused; a non-empty root URI that is not a
   * file URI fails and changes nothing; otherwise its path becomes the root path and is
   * added as a workspace folder. ctagsFound says whether ctags is on the search path.
   */
  method Initialize(h: LsHandler, params: Option<LsInitParams>, ctagsFound: bool) returns (r: Result<LsCapabilities, InitError>)
    modifies h`rootPath, h`folders
    ensures params.None? ==> r == Failure(InvalidParams)
    ensures r.Success? <==> params.Some? && (params.value.rootURI == "" || Paths.FromURI(params.value.rootURI).Success?)
    ensures r.Failure? ==> h.rootPath == old(h.rootPath) && h.folders == old(h.folders)
    ensures r.Success? ==>
      r.value == Announced(h.configs, h.commands, h.provideDefinition, ctagsFound, h.triggerChars, params.value.initializationOptions)
    ensures r.Success? && params.value.rootURI == "" ==> h.rootPath == old(h.rootPath) && h.folders == old(h.folders)
    ensures r.Success? && params.value.rootURI != "" ==>
      var path := Paths.FromURI(params.value.rootURI).value;
      h.rootPath == path && h.folders == old(h.folders) + [path]
  {
    if params.None? {
      return Failure(InvalidParams);
    }
    var p := params.value;
    if p.rootURI != "" {
      var rootPath := Paths.FromURI(p.rootURI);
      if rootPath.Failure? {
        return Failure(InvalidRootURI(rootPath.error));
      }
      h.rootPath := rootPath.value;
      h.folders := h.folders + [rootPath.value];
    }
    var caps := ComputeCapabilities(h.configs, h.commands, h.provideDefinition, ctagsFound, h.triggerChars, p.initializationOptions);
    return Success(caps);
  }
}
