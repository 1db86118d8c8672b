/**
 * core/linting.go: choosing the lint configs for a document, turning each tool's
 * parsed errorformat entries into diagnostics per target URI, the per-language ledger
 * of URIs a workspace linter published to, and what gets published.
 *
 * Tool runs, errorformat compilation, the working directory and the character classes
 * are inputs (Env); nothing here runs a process.
 */
module CoreLinting {
  import opened Wrappers
  import opened Text
  import opened Paths
  import opened Types
  import opened CoreHandler

  // ------------------------------------------------------------------ severity

  /** getSeverity can index its category: an empty map, or a non-empty value for the type letter. */
  predicate SeverityDefined(typ: char, categoryMap: map<string, string>) {
    |categoryMap| == 0 || ([typ] in categoryMap && |categoryMap[[typ]]| > 0)
  }

  /** The type letter getSeverity switches on: the first character of the mapped category, if there is a map. */
  function SeverityLetter(typ: char, categoryMap: map<string, string>): char
    requires SeverityDefined(typ, categoryMap)
  {
    if |categoryMap| > 0 then categoryMap[[typ]][0] else typ
  }

  /**
   * getSeverity: E/W/I/N in either case give Error/Warning/Information/Hint; any other
   * letter gives the configured severity when it is set, else Error.
   */
  function GetSeverity(typ: char, categoryMap: map<string, string>, defaultSeverity: int): (severity: int)
    requires SeverityDefined(typ, categoryMap)
    ensures var t := SeverityLetter(typ, categoryMap);
      && ((t == 'E' || t == 'e') ==> severity == Error)
      && ((t == 'W' || t == 'w') ==> severity == Warning)
      && ((t == 'I' || t == 'i') ==> severity == Information)
      && ((t == 'N' || t == 'n') ==> severity == Hint)
      && (t !in "EeWwIiNn" ==> severity == if defaultSeverity != 0 then defaultSeverity else Error)
  {
    var t := SeverityLetter(typ, categoryMap);
    var severity := if defaultSeverity != 0 then defaultSeverity else Error;
    if t == 'E' || t == 'e' then Error
    else if t == 'W' || t == 'w' then Warning
    else if t == 'I' || t == 'i' then Information
    else if t == 'N' || t == 'n' then Hint
    else severity
  }

  /** With a configured severity that is unset or a DiagnosticSeverity, the result is a DiagnosticSeverity. */
  lemma SeverityInRange(typ: char, categoryMap: map<string, string>, defaultSeverity: int)
    requires SeverityDefined(typ, categoryMap) && 0 <= defaultSeverity <= Hint
    ensures Error <= GetSeverity(typ, categoryMap, defaultSeverity) <= Hint
  {
  }

  // ------------------------------------------------------------------ config selection

  /** The gates a language config passes: marker (when required), open/change event, command. */
  predicate LanguageGate(fs: FileSystem, fname: string, event: EventType, cfg: Language) {
    && !(MatchRoot(fs, fname, cfg.rootMarkers) == "" && cfg.requireMarker)
    && !(event == Open && !cfg.lintAfterOpen)
    && !(event == Change && cfg.lintOnSave)
    && cfg.lintCommand != ""
  }

  function FilterLanguage(fs: FileSystem, fname: string, event: EventType, cfgs: seq<Language>): seq<Language>
    decreases |cfgs|
  {
    if |cfgs| == 0 then []
    else (if LanguageGate(fs, fname, event, cfgs[0]) then [cfgs[0]] else []) + FilterLanguage(fs, fname, event, cfgs[1..])
  }

  function FilterCommand(cfgs: seq<Language>): seq<Language>
    decreases |cfgs|
  {
    if |cfgs| == 0 then []
    else (if cfgs[0].lintCommand != "" then [cfgs[0]] else []) + FilterCommand(cfgs[1..])
  }

  /** lintConfigsForDocument: the language's configs that pass the gates, then the wildcard configs with a command. */
  function LintConfigsForDocument(fs: FileSystem, fname: string, langID: string, allConfigs: map<string, seq<Language>>,
                                  event: EventType): seq<Language>
  {
    (if langID in allConfigs then FilterLanguage(fs, fname, event, allConfigs[langID]) else [])
    + (if Wildcard in allConfigs then FilterCommand(allConfigs[Wildcard]) else [])
  }

  lemma {:induction false} FilterLanguageMembers(fs: FileSystem, fname: string, event: EventType, cfgs: seq<Language>, c: Language)
    ensures c in FilterLanguage(fs, fname, event, cfgs) <==> c in cfgs && LanguageGate(fs, fname, event, c)
    decreases |cfgs|
  {
    if |cfgs| > 0 {
      FilterLanguageMembers(fs, fname, event, cfgs[1..], c);
      assert cfgs == [cfgs[0]] + cfgs[1..];
    }
  }

  lemma {:induction false} FilterCommandMembers(cfgs: seq<Language>, c: Language)
    ensures c in FilterCommand(cfgs) <==> c in cfgs && c.lintCommand != ""
    decreases |cfgs|
  {
    if |cfgs| > 0 {
      FilterCommandMembers(cfgs[1..], c);
      assert cfgs == [cfgs[0]] + cfgs[1..];
    }
  }

  /**
   * A config is selected exactly when it is a language config passing the gates or a
   * wildcard config with a command; every selected config has a command.
   */
  lemma LintConfigsMembers(fs: FileSystem, fname: string, langID: string, allConfigs: map<string, seq<Language>>,
                           event: EventType, c: Language)
    ensures c in LintConfigsForDocument(fs, fname, langID, allConfigs, event) <==>
      (langID in allConfigs && c in allConfigs[langID] && LanguageGate(fs, fname, event, c))
      || (Wildcard in allConfigs && c in allConfigs[Wildcard] && c.lintCommand != "")
    ensures c in LintConfigsForDocument(fs, fname, langID, allConfigs, event) ==> c.lintCommand != ""
  {
    if langID in allConfigs {
      FilterLanguageMembers(fs, fname, event, allConfigs[langID], c);
    }
    if Wildcard in allConfigs {
      FilterCommandMembers(allConfigs[Wildcard], c);
    }
  }

  // ------------------------------------------------------------------ inputs and results

  /** What a lint tool is started with. */
  datatype Invocation = Invocation(command: string, dir: string, env: seq<string>, stdin: Option<string>)

  /**
   * The world a lint run sees: the directory tree, the working directory, the character
   * classes, whether a set of errorformats compiles, each tool run's result, and the
   * entries the errorformat scanner reads from an output under a set of formats.
   */
  datatype Env = Env(
    fs: FileSystem,
    cwd: string,
    cls: char -> int,
    formatsOk: seq<string> -> bool,
    run: Invocation -> ToolRun,
    scan: (seq<string>, string) -> seq<Entry>)

  const DefaultFormats: seq<string> := ["%f:%l:%m", "%f:%l:%c:%m"]

  /** The config's errorformats, or the default pair when it has none. */
  function LintFormats(config: Language): seq<string> {
    if |config.lintFormats| == 0 then DefaultFormats else config.lintFormats
  }

  datatype LintError = DocumentNotFound(uri: DocumentURI) | InvalidURI(uri: DocumentURI) | InvalidErrorFormat(formats: seq<string>)

  /**
   * Why lintDocument returns no map: an error; nil map and nil error (a tool was
   * cancelled); or a runtime panic (getSeverity indexing an empty category).
   */
  datatype Halt = Failed(error: LintError) | Aborted | Panicked

  /** lintDocument's result: no map, or the diagnostics per URI. */
  datatype LintOutcome = Halted(halt: Halt) | Linted(diagnostics: map<DocumentURI, seq<Diagnostic>>)

  /** What stays fixed while the configs of one lint run are processed. */
  datatype LintContext = LintContext(
    uri: DocumentURI,
    fname: string,
    file: FileRef,
    ledger: set<DocumentURI>,
    rootMarkers: seq<string>,
    rootPath: string,
    env: Env)

  /** The result map and the URIs recorded for the ledger so far. */
  datatype Acc = Acc(diags: map<DocumentURI, seq<Diagnostic>>, published: set<DocumentURI>)

  datatype Step = Continue(acc: Acc) | Stop(halt: Halt)

  /** What one errorformat entry becomes. */
  datatype EntryResult = Skip | Target(target: DocumentURI, diagnostic: Diagnostic) | Panic

  // ------------------------------------------------------------------ one entry

  /** The URI a diagnostic is filed under: the document, an absolute file, or a file below the root. */
  function DiagnosticURI(uri: DocumentURI, rootPath: string, filename: string): DocumentURI {
    if filename == "" then uri
    else if IsAbs(filename) then ToURI(filename)
    else ToURI(Paths.Join(rootPath, filename))
  }

  function MessagePrefix(config: Language): string {
    if config.prefix != "" then "[" + config.prefix + "] " else ""
  }

  function SourceOf(config: Language): Option<string> {
    if config.lintSource != "" then Some(config.lintSource) else None
  }

  /** The column after the column offset, which applies only to a positive column. */
  function EntryColumn(config: Language, e: Entry): int {
    if config.lintOffsetColumns > 0 && e.col > 0 then e.col + config.lintOffsetColumns else e.col
  }

  /** The 0-based line of an entry: line 0 counts as line 1. */
  function EntryLine(config: Language, e: Entry): int {
    (if e.lnum == 0 then 1 else e.lnum) - 1 - config.lintOffset
  }

  /** The file an entry names; a standard-input name stands for the document, and is dropped unless its absolute path is the document's. */
  function EntryFilename(ctx: LintContext, config: Language, e: Entry): Option<string> {
    if config.lintStdin && IsFilename(e.filename) then
      if Abs(ctx.env.cwd, ctx.fname) != ctx.fname then None else Some(ctx.fname)
    else Some(e.filename)
  }

  /** The word an entry's range covers: none for column 0, else the word at the reported position. */
  function EntryWord(ctx: LintContext, config: Language, e: Entry): string {
    var col := EntryColumn(config, e);
    if col == 0 then "" else WordAtSpec(ctx.file.text, Position(EntryLine(config, e), col - 1), ctx.env.cls)
  }

  /** The diagnostic for an entry whose severity letter can be read. */
  function EntryDiagnostic(ctx: LintContext, config: Language, e: Entry): Diagnostic
    requires SeverityDefined(e.typ, config.lintCategoryMap)
  {
    var col := EntryColumn(config, e);
    var line := EntryLine(config, e);
    var character := (if col == 0 then 1 else col) - 1;
    Diagnostic(
      Range(Position(line, character), Position(line, character + |EntryWord(ctx, config, e)|)),
      GetSeverity(e.typ, config.lintCategoryMap, config.lintSeverity),
      ItoaPtrIfNotZero(e.nr),
      SourceOf(config),
      MessagePrefix(config) + e.text)
  }

  /** The body of the scanner loop for one entry. */
  function MapEntry(ctx: LintContext, config: Language, rootPath: string, e: Entry): EntryResult {
    if !e.valid then Skip
    else match EntryFilename(ctx, config, e)
      case None => Skip
      case Some(filename) =>
        var target := DiagnosticURI(ctx.uri, rootPath, filename);
        if target != ctx.uri && !config.lintWorkspace then Skip
        else if !SeverityDefined(e.typ, config.lintCategoryMap) then Panic
        else Target(target, EntryDiagnostic(ctx, config, e))
  }

  /**
   * Where an entry's diagnostic lands: it starts at (line-1-LintOffset, col-1) with line 0
   * read as 1, column 0 read as 1 and the column offset added to positive columns; it spans
   * the word there on one line; it is filed under the document unless the config lints the
   * workspace; and it carries the number as its code and the prefixed text as its message.
   */
  lemma EntryPlacement(ctx: LintContext, config: Language, rootPath: string, e: Entry)
    requires MapEntry(ctx, config, rootPath, e).Target?
    ensures var d := MapEntry(ctx, config, rootPath, e).diagnostic;
      var col := EntryColumn(config, e);
      && e.valid
      && d.range.start == Position((if e.lnum == 0 then 1 else e.lnum) - 1 - config.lintOffset, (if col == 0 then 1 else col) - 1)
      && d.range.end.line == d.range.start.line
      && d.range.end.character >= d.range.start.character
      && (col == 0 ==> d.range.end == d.range.start)
      && (config.lintOffsetColumns > 0 && e.col > 0 ==> d.range.start.character == e.col + config.lintOffsetColumns - 1)
      && (d.code.None? <==> e.nr == 0)
      && d.message == MessagePrefix(config) + e.text
    ensures !config.lintWorkspace ==> MapEntry(ctx, config, rootPath, e).target == ctx.uri
  {
  }

  // ------------------------------------------------------------------ the fold

  /** Workspace seeding: every ledger URI gets an empty list unless it already has one. */
  function Seed(diags: map<DocumentURI, seq<Diagnostic>>, ledger: set<DocumentURI>): (seeded: map<DocumentURI, seq<Diagnostic>>)
    ensures seeded.Keys == diags.Keys + ledger
    ensures forall u :: u in diags ==> seeded[u] == diags[u]
    ensures forall u :: u in ledger && u !in diags ==> seeded[u] == []
  {
    map u | u in diags.Keys + ledger :: if u in diags then diags[u] else []
  }

  /** Append a diagnostic to a URI's list, recording the URI when the config lints the workspace. */
  function Record(acc: Acc, target: DocumentURI, d: Diagnostic, workspace: bool): Acc {
    Acc(acc.diags[target := (if target in acc.diags then acc.diags[target] else []) + [d]],
        if workspace then acc.published + {target} else acc.published)
  }

  /** What each of one tool's entries becomes. */
  function EntryResults(ctx: LintContext, config: Language, rootPath: string, entries: seq<Entry>): (results: seq<EntryResult>)
    ensures |results| == |entries|
  {
    seq(|entries|, i requires 0 <= i < |entries| => MapEntry(ctx, config, rootPath, entries[i]))
  }

  lemma EntryResultsAt(ctx: LintContext, config: Language, rootPath: string, entries: seq<Entry>, k: nat)
    requires k < |entries|
    ensures EntryResults(ctx, config, rootPath, entries)[k] == MapEntry(ctx, config, rootPath, entries[k])
  {
  }

  /** The entry results from the k-th on, folded into the accumulator; a panic stops the fold. */
  function CollectEntries(results: seq<EntryResult>, workspace: bool, k: nat, acc: Acc): Step
    requires k <= |results|
    decreases |results| - k
  {
    if k == |results| then Continue(acc)
    else if results[k].Panic? then Stop(Panicked)
    else CollectEntries(results, workspace, k + 1, Absorb(acc, results[k], workspace))
  }

  /** The accumulator after one entry result that is not a panic: a target is recorded, a skip changes nothing. */
  function Absorb(acc: Acc, r: EntryResult, workspace: bool): Acc {
    if r.Target? then Record(acc, r.target, r.diagnostic, workspace) else acc
  }

  /** The lint command: " ${INPUT}" appended when the file is neither piped nor the workspace linted, then templated. */
  function LintCommandFor(config: Language, fname: string, rootPath: string): string {
    var command :=
      if !config.lintStdin && !config.lintWorkspace && !Contains(config.lintCommand, "${INPUT}")
      then config.lintCommand + " ${INPUT}" else config.lintCommand;
    ReplaceCommandInputFilename(command, fname, rootPath)
  }

  function InvocationFor(ctx: LintContext, config: Language, rootPath: string): Invocation {
    Invocation(LintCommandFor(config, ctx.fname, rootPath), rootPath, config.env,
               if config.lintStdin then Some(ctx.file.text) else None)
  }

  /** The accumulator after a workspace config's seeding. */
  function Seeded(ctx: LintContext, config: Language, acc: Acc): Acc {
    if config.lintWorkspace then Acc(Seed(acc.diags, ctx.ledger), acc.published) else acc
  }

  /** One iteration of the config loop. */
  function RunConfig(ctx: LintContext, config: Language, acc: Acc): Step {
    var seeded := Seeded(ctx, config, acc);
    if config.lintCommand == "" then Continue(seeded)
    else
      var rootPath := FindRootPath(ctx.env.fs, ctx.fname, config, ctx.rootMarkers, ctx.rootPath);
      if !ctx.env.formatsOk(LintFormats(config)) then Stop(Failed(InvalidErrorFormat(config.lintFormats)))
      else match ctx.env.run(InvocationFor(ctx, config, rootPath))
        case Cancelled => Stop(Aborted)
        case Finished(exitZero, output) =>
          if exitZero && !config.lintIgnoreExitCode then Continue(seeded)
          else
            var entries := ctx.env.scan(LintFormats(config), output);
            CollectEntries(EntryResults(ctx, config, rootPath, entries), config.lintWorkspace, 0, seeded)
  }

  /** The selected configs from the i-th on; the first that stops ends the run. */
  function RunConfigs(ctx: LintContext, configs: seq<Language>, i: nat, acc: Acc): Step
    requires i <= |configs|
    decreases |configs| - i
  {
    if i == |configs| then Continue(acc)
    else match RunConfig(ctx, configs[i], acc)
      case Stop(o) => Stop(o)
      case Continue(a) => RunConfigs(ctx, configs, i + 1, a)
  }

  /** The map a run starts from: the document's URI with no diagnostics. */
  function Start(ctx: LintContext): Acc {
    Acc(map[ctx.uri := []], {})
  }

  predicate AnyWorkspace(configs: seq<Language>) {
    exists i :: 0 <= i < |configs| && configs[i].lintWorkspace
  }

  function LedgerOf(lastPublished: map<string, set<DocumentURI>>, langID: string): set<DocumentURI> {
    if langID in lastPublished then lastPublished[langID] else {}
  }

  datatype LintResult = LintResult(outcome: LintOutcome, lastPublishedURIs: map<string, set<DocumentURI>>)

  /** lintDocument on the handler's state: its outcome and the new ledger. */
  function Lint(files: map<DocumentURI, FileRef>, configs: map<string, seq<Language>>, rootMarkers: seq<string>,
                rootPath: string, lastPublished: map<string, set<DocumentURI>>,
                uri: DocumentURI, event: EventType, env: Env): LintResult
  {
    if uri !in files then LintResult(Halted(Failed(DocumentNotFound(uri))), lastPublished)
    else
      var f := files[uri];
      match FromURI(uri)
      case Failure(_) => LintResult(Halted(Failed(InvalidURI(uri))), lastPublished)
      case Success(fname) =>
        var selected := LintConfigsForDocument(env.fs, fname, f.languageID, configs, event);
        if |selected| == 0 then LintResult(Linted(map[]), lastPublished)
        else
          var ctx := LintContext(uri, fname, f, LedgerOf(lastPublished, f.languageID), rootMarkers, rootPath, env);
          match RunConfigs(ctx, selected, 0, Start(ctx))
          case Stop(halt) => LintResult(Halted(halt), lastPublished)
          case Continue(acc) =>
            LintResult(Linted(acc.diags),
                       if AnyWorkspace(selected) then lastPublished[f.languageID := acc.published] else lastPublished)
  }

  // ------------------------------------------------------------------ properties of the fold

  /**
   * Folding entry results only adds URIs and list items; recorded URIs have lists; and
   * when every target is the document, no other URI is added.
   */
  lemma {:induction false} CollectEntriesGrows(results: seq<EntryResult>, workspace: bool, k: nat, acc: Acc, uri: DocumentURI)
    requires k <= |results|
    requires !workspace ==> forall i :: 0 <= i < |results| && results[i].Target? ==> results[i].target == uri
    requires CollectEntries(results, workspace, k, acc).Continue?
    ensures var a := CollectEntries(results, workspace, k, acc).acc;
      && acc.diags.Keys <= a.diags.Keys
      && acc.published <= a.published
      && a.published - acc.published <= a.diags.Keys
      && (!workspace ==> a.diags.Keys <= acc.diags.Keys + {uri} && a.published == acc.published)
    decreases |results| - k
  {
    if k < |results| {
      CollectEntriesGrows(results, workspace, k + 1, Absorb(acc, results[k], workspace), uri);
    }
  }

  /** One config only adds URIs; without the workspace flag it adds none but the document's. */
  lemma RunConfigGrows(ctx: LintContext, config: Language, acc: Acc)
    requires RunConfig(ctx, config, acc).Continue?
    ensures var a := RunConfig(ctx, config, acc).acc;
      && acc.diags.Keys <= a.diags.Keys
      && acc.published <= a.published
      && a.published - acc.published <= a.diags.Keys
      && (config.lintWorkspace ==> ctx.ledger <= a.diags.Keys)
      && (!config.lintWorkspace ==> a.diags.Keys <= acc.diags.Keys + {ctx.uri} && a.published == acc.published)
  {
    var seeded := Seeded(ctx, config, acc);
    if config.lintCommand != "" {
      var rootPath := FindRootPath(ctx.env.fs, ctx.fname, config, ctx.rootMarkers, ctx.rootPath);
      var run := ctx.env.run(InvocationFor(ctx, config, rootPath));
      if run.Finished? && !(run.exitZero && !config.lintIgnoreExitCode) {
        var entries := ctx.env.scan(LintFormats(config), run.output);
        var results := EntryResults(ctx, config, rootPath, entries);
        forall i | 0 <= i < |results| && results[i].Target? && !config.lintWorkspace
          ensures results[i].target == ctx.uri
        {
          EntryResultsAt(ctx, config, rootPath, entries, i);
          EntryPlacement(ctx, config, rootPath, entries[i]);
        }
        CollectEntriesGrows(results, config.lintWorkspace, 0, seeded, ctx.uri);
      }
    }
  }

  /**
   * Across the configs from the i-th on: URIs are only added; every newly recorded URI
   * is a key; a workspace config among them puts every ledger URI among the keys; and
   * without workspace configs no URI but the document's is added and nothing is recorded.
   */
  lemma {:induction false} RunConfigsInvariant(ctx: LintContext, configs: seq<Language>, i: nat, acc: Acc)
    requires i <= |configs|
    requires RunConfigs(ctx, configs, i, acc).Continue?
    ensures var a := RunConfigs(ctx, configs, i, acc).acc;
      && acc.diags.Keys <= a.diags.Keys
      && acc.published <= a.published
      && a.published - acc.published <= a.diags.Keys
      && (AnyWorkspace(configs[i..]) ==> ctx.ledger <= a.diags.Keys)
      && (!AnyWorkspace(configs[i..]) ==> a.diags.Keys <= acc.diags.Keys + {ctx.uri} && a.published == acc.published)
    decreases |configs| - i
  {
    if i < |configs| {
      RunConfigsHead(ctx, configs, i, acc);
      var a := RunConfig(ctx, configs[i], acc).acc;
      RunConfigGrows(ctx, configs[i], acc);
      RunConfigsInvariant(ctx, configs, i + 1, a);
      AnyWorkspaceCons(configs, i);
    }
  }

  /** A run that continues past config i continues after it, from that config's accumulator. */
  lemma RunConfigsHead(ctx: LintContext, configs: seq<Language>, i: nat, acc: Acc)
    requires i < |configs| && RunConfigs(ctx, configs, i, acc).Continue?
    ensures RunConfig(ctx, configs[i], acc).Continue?
    ensures RunConfigs(ctx, configs, i, acc) == RunConfigs(ctx, configs, i + 1, RunConfig(ctx, configs[i], acc).acc)
  {
  }

  lemma AnyWorkspaceCons(configs: seq<Language>, i: nat)
    requires i < |configs|
    ensures AnyWorkspace(configs[i..]) <==> configs[i].lintWorkspace || AnyWorkspace(configs[i + 1..])
  {
    if AnyWorkspace(configs[i + 1..]) {
      var j :| 0 <= j < |configs[i + 1..]| && configs[i + 1..][j].lintWorkspace;
      assert configs[i..][j + 1].lintWorkspace;
    }
    if configs[i].lintWorkspace {
      assert configs[i..][0].lintWorkspace;
    }
    if AnyWorkspace(configs[i..]) && !configs[i].lintWorkspace {
      var j :| 0 <= j < |configs[i..]| && configs[i..][j].lintWorkspace;
      assert configs[i + 1..][j - 1].lintWorkspace;
    }
  }

  /**
   * A tool that was cancelled makes the whole run end with nil map and nil error,
   * whatever the earlier configs collected and whatever the later ones would do.
   */
  lemma CancelledAborts(ctx: LintContext, configs: seq<Language>, i: nat, acc: Acc)
    requires i < |configs|
    requires configs[i].lintCommand != ""
    requires ctx.env.formatsOk(if |configs[i].lintFormats| == 0 then DefaultFormats else configs[i].lintFormats)
    requires ctx.env.run(InvocationFor(ctx, configs[i],
               FindRootPath(ctx.env.fs, ctx.fname, configs[i], ctx.rootMarkers, ctx.rootPath))).Cancelled?
    ensures RunConfigs(ctx, configs, i, acc) == Stop(Aborted)
  {
  }

  /**
   * A tool that exits zero without LintIgnoreExitCode contributes nothing beyond the
   * workspace seeding, and the next config still runs.
   */
  lemma ZeroExitSkipped(ctx: LintContext, config: Language, acc: Acc)
    requires config.lintCommand != ""
    requires ctx.env.formatsOk(if |config.lintFormats| == 0 then DefaultFormats else config.lintFormats)
    requires !config.lintIgnoreExitCode
    requires var run := ctx.env.run(InvocationFor(ctx, config,
               FindRootPath(ctx.env.fs, ctx.fname, config, ctx.rootMarkers, ctx.rootPath)));
      run.Finished? && run.exitZero
    ensures RunConfig(ctx, config, acc) == Continue(Seeded(ctx, config, acc))
  {
  }

  /** A document that is not open fails with "document not found"; with no applicable configs the map is empty. */
  lemma LintEarlyExits(files: map<DocumentURI, FileRef>, configs: map<string, seq<Language>>, rootMarkers: seq<string>,
                       rootPath: string, lastPublished: map<string, set<DocumentURI>>,
                       uri: DocumentURI, event: EventType, env: Env)
    ensures uri !in files ==>
      Lint(files, configs, rootMarkers, rootPath, lastPublished, uri, event, env)
        == LintResult(Halted(Failed(DocumentNotFound(uri))), lastPublished)
    ensures (uri in files && FromURI(uri).Success?
             && |LintConfigsForDocument(env.fs, FromURI(uri).value, files[uri].languageID, configs, event)| == 0) ==>
      Lint(files, configs, rootMarkers, rootPath, lastPublished, uri, event, env) == LintResult(Linted(map[]), lastPublished)
  {
  }

  /**
   * A successful run with at least one applicable config: the document's URI is among
   * the keys; without a workspace config it is the only key and the ledger is unchanged;
   * with one, every URI of the language's previous ledger is a key (an empty list clears
   * fixed errors) and the new ledger holds only URIs that are keys.
   */
  lemma LintResultShape(files: map<DocumentURI, FileRef>, configs: map<string, seq<Language>>, rootMarkers: seq<string>,
                        rootPath: string, lastPublished: map<string, set<DocumentURI>>,
                        uri: DocumentURI, event: EventType, env: Env)
    requires uri in files && FromURI(uri).Success?
    requires |LintConfigsForDocument(env.fs, FromURI(uri).value, files[uri].languageID, configs, event)| > 0
    requires Lint(files, configs, rootMarkers, rootPath, lastPublished, uri, event, env).outcome.Linted?
    ensures var r := Lint(files, configs, rootMarkers, rootPath, lastPublished, uri, event, env);
      var lang := files[uri].languageID;
      var selected := LintConfigsForDocument(env.fs, FromURI(uri).value, lang, configs, event);
      && uri in r.outcome.diagnostics
      && (!AnyWorkspace(selected) ==> r.outcome.diagnostics.Keys == {uri} && r.lastPublishedURIs == lastPublished)
      && (AnyWorkspace(selected) ==>
            && LedgerOf(lastPublished, lang) <= r.outcome.diagnostics.Keys
            && r.lastPublishedURIs.Keys == lastPublished.Keys + {lang}
            && r.lastPublishedURIs[lang] <= r.outcome.diagnostics.Keys
            && (forall l :: l in lastPublished && l != lang ==> r.lastPublishedURIs[l] == lastPublished[l]))
  {
    var f := files[uri];
    var fname := FromURI(uri).value;
    var selected := LintConfigsForDocument(env.fs, fname, f.languageID, configs, event);
    var ctx := LintContext(uri, fname, f, LedgerOf(lastPublished, f.languageID), rootMarkers, rootPath, env);
    RunConfigsInvariant(ctx, selected, 0, Start(ctx));
    assert selected[0..] == selected;
  }

  /**
   * The ledger follows the map: every recorded URI has a non-empty list, and every other
   * URI but the document's has an empty one.
   */
  predicate LedgerTracks(acc: Acc, uri: DocumentURI) {
    && (forall u :: u in acc.published ==> u in acc.diags && |acc.diags[u]| > 0)
    && (forall u :: u in acc.diags && u != uri && u !in acc.published ==> acc.diags[u] == [])
  }

  lemma {:induction false} CollectEntriesTracks(results: seq<EntryResult>, workspace: bool, k: nat, acc: Acc, uri: DocumentURI)
    requires k <= |results|
    requires !workspace ==> forall i :: 0 <= i < |results| && results[i].Target? ==> results[i].target == uri
    requires CollectEntries(results, workspace, k, acc).Continue?
    requires LedgerTracks(acc, uri)
    ensures LedgerTracks(CollectEntries(results, workspace, k, acc).acc, uri)
    decreases |results| - k
  {
    if k < |results| {
      var next := Absorb(acc, results[k], workspace);
      assert LedgerTracks(next, uri);
      CollectEntriesTracks(results, workspace, k + 1, next, uri);
    }
  }

  lemma RunConfigTracks(ctx: LintContext, config: Language, acc: Acc)
    requires RunConfig(ctx, config, acc).Continue?
    requires LedgerTracks(acc, ctx.uri)
    ensures LedgerTracks(RunConfig(ctx, config, acc).acc, ctx.uri)
  {
    var seeded := Seeded(ctx, config, acc);
    assert LedgerTracks(seeded, ctx.uri);
    if config.lintCommand != "" {
      var rootPath := FindRootPath(ctx.env.fs, ctx.fname, config, ctx.rootMarkers, ctx.rootPath);
      var run := ctx.env.run(InvocationFor(ctx, config, rootPath));
      if run.Finished? && !(run.exitZero && !config.lintIgnoreExitCode) {
        var entries := ctx.env.scan(LintFormats(config), run.output);
        var results := EntryResults(ctx, config, rootPath, entries);
        forall i | 0 <= i < |results| && results[i].Target? && !config.lintWorkspace
          ensures results[i].target == ctx.uri
        {
          EntryResultsAt(ctx, config, rootPath, entries, i);
          EntryPlacement(ctx, config, rootPath, entries[i]);
        }
        CollectEntriesTracks(results, config.lintWorkspace, 0, seeded, ctx.uri);
      }
    }
  }

  lemma {:induction false} RunConfigsTracks(ctx: LintContext, configs: seq<Language>, i: nat, acc: Acc)
    requires i <= |configs|
    requires RunConfigs(ctx, configs, i, acc).Continue?
    requires LedgerTracks(acc, ctx.uri)
    ensures LedgerTracks(RunConfigs(ctx, configs, i, acc).acc, ctx.uri)
    decreases |configs| - i
  {
    if i < |configs| {
      RunConfigsHead(ctx, configs, i, acc);
      RunConfigTracks(ctx, configs[i], acc);
      RunConfigsTracks(ctx, configs, i + 1, RunConfig(ctx, configs[i], acc).acc);
    }
  }

  /**
   * After a run with a workspace config, the new ledger is exactly the URIs other than the
   * document's whose lists are non-empty (plus the document's when a workspace tool
   * reported on it): a URI of the previous ledger that no tool reported on this time is
   * published with an empty list, which clears its fixed errors.
   */
  lemma FixedURIsCleared(files: map<DocumentURI, FileRef>, configs: map<string, seq<Language>>, rootMarkers: seq<string>,
                         rootPath: string, lastPublished: map<string, set<DocumentURI>>,
                         uri: DocumentURI, event: EventType, env: Env, r: LintResult)
    requires uri in files && FromURI(uri).Success?
    requires AnyWorkspace(LintConfigsForDocument(env.fs, FromURI(uri).value, files[uri].languageID, configs, event))
    requires r == Lint(files, configs, rootMarkers, rootPath, lastPublished, uri, event, env)
    requires r.outcome.Linted?
    ensures var lang := files[uri].languageID;
      && lang in r.lastPublishedURIs
      && (forall u :: u in r.lastPublishedURIs[lang] ==> u in r.outcome.diagnostics && |r.outcome.diagnostics[u]| > 0)
      && (forall u :: u in r.outcome.diagnostics && u != uri ==>
            (u in r.lastPublishedURIs[lang] <==> |r.outcome.diagnostics[u]| > 0))
      && (forall u :: u in LedgerOf(lastPublished, lang) && u !in r.lastPublishedURIs[lang] && u != uri ==>
            u in r.outcome.diagnostics && r.outcome.diagnostics[u] == [])
  {
    var f := files[uri];
    var fname := FromURI(uri).value;
    var selected := LintConfigsForDocument(env.fs, fname, f.languageID, configs, event);
    var ctx := LintContext(uri, fname, f, LedgerOf(lastPublished, f.languageID), rootMarkers, rootPath, env);
    assert LedgerTracks(Start(ctx), uri);
    RunConfigsTracks(ctx, selected, 0, Start(ctx));
    RunConfigsInvariant(ctx, selected, 0, Start(ctx));
    assert selected[0..] == selected;
  }

  /** The version published with every list: the document's, or 0 once it is closed. */
  function PublishVersion(files: map<DocumentURI, FileRef>, uri: DocumentURI): int {
    if uri in files then files[uri].version else 0
  }

  /** The URI a key of the map is published under: "file:" stands for the document. */
  function PublishTarget(key: DocumentURI, uri: DocumentURI): DocumentURI {
    if key == "file:" then uri else key
  }

  /** The notification for one key of the map. */
  function Publication(diags: map<DocumentURI, seq<Diagnostic>>, key: DocumentURI, uri: DocumentURI, version: int): PublishDiagnosticsParams
    requires key in diags
  {
    PublishDiagnosticsParams(PublishTarget(key, uri), diags[key], version)
  }

  /**
   * sent is one notification per key of the map, each key once, in the order the keys
   * were walked.
   */
  predicate PublishedOnce(diags: map<DocumentURI, seq<Diagnostic>>, uri: DocumentURI, version: int,
                          sent: seq<PublishDiagnosticsParams>, order: seq<DocumentURI>)
  {
    && |sent| == |order|
    && (forall i :: 0 <= i < |order| ==> order[i] in diags && sent[i] == Publication(diags, order[i], uri, version))
    && (forall u :: u in diags ==> u in order)
    && (forall i, j :: 0 <= i < j < |order| ==> order[i] != order[j])
  }

  /**
   * Two keys share a target only when they are "file:" and the document's own URI; so every
   * other target is published exactly once, under the key of that name.
   */
  lemma PublishTargets(uri: DocumentURI, k1: DocumentURI, k2: DocumentURI)
    ensures PublishTarget("file:", uri) == uri
    ensures k1 != "file:" ==> PublishTarget(k1, uri) == k1
    ensures k1 != k2 && PublishTarget(k1, uri) == PublishTarget(k2, uri) ==>
      (k1 == "file:" && k2 == uri) || (k1 == uri && k2 == "file:")
  {
  }

  /**
   * After a run with a workspace config, every URI of the language's previous ledger that
   * no tool reported on this time is sent an empty list, with the document's version.
   */
  lemma FixedURIsPublishedEmpty(files: map<DocumentURI, FileRef>, configs: map<string, seq<Language>>, rootMarkers: seq<string>,
                                rootPath: string, lastPublished: map<string, set<DocumentURI>>,
                                uri: DocumentURI, event: EventType, env: Env, r: LintResult,
                                sent: seq<PublishDiagnosticsParams>, order: seq<DocumentURI>, u: DocumentURI)
    requires uri in files && FromURI(uri).Success?
    requires AnyWorkspace(LintConfigsForDocument(env.fs, FromURI(uri).value, files[uri].languageID, configs, event))
    requires r == Lint(files, configs, rootMarkers, rootPath, lastPublished, uri, event, env)
    requires r.outcome.Linted?
    requires PublishedOnce(r.outcome.diagnostics, uri, PublishVersion(files, uri), sent, order)
    requires u in LedgerOf(lastPublished, files[uri].languageID) && u != uri && u != "file:"
    requires files[uri].languageID in r.lastPublishedURIs && u !in r.lastPublishedURIs[files[uri].languageID]
    ensures PublishDiagnosticsParams(u, [], files[uri].version) in sent
  {
    FixedURIsCleared(files, configs, rootMarkers, rootPath, lastPublished, uri, event, env, r);
    var i :| 0 <= i < |order| && order[i] == u;
    assert sent[i] == Publication(r.outcome.diagnostics, u, uri, PublishVersion(files, uri));
  }

  // ------------------------------------------------------------------ the imperative lint run

  /** The seeding loop over the language's ledger. */
  method SeedLedger(diags: map<DocumentURI, seq<Diagnostic>>, ledger: set<DocumentURI>)
    returns (seeded: map<DocumentURI, seq<Diagnostic>>)
    ensures seeded == Seed(diags, ledger)
  {
    seeded := diags;
    var rest := ledger;
    while rest != {}
      invariant rest <= ledger
      invariant seeded == Seed(diags, ledger - rest)
      decreases |rest|
    {
      var u :| u in rest;
      if u !in seeded {
        seeded := seeded[u := []];
      }
      rest := rest - {u};
      assert seeded == Seed(diags, ledger - rest);
    }
    assert ledger - rest == ledger;
  }

  /** Where an entry's diagnostic starts, and the word it spans. */
  method PlaceEntry(ctx: LintContext, config: Language, entry: Entry) returns (line: int, character: int, word: string)
    ensures line == EntryLine(config, entry)
    ensures character == (if EntryColumn(config, entry) == 0 then 1 else EntryColumn(config, entry)) - 1
    ensures word == EntryWord(ctx, config, entry)
  {
    word := "";
    var col := entry.col;
    if config.lintOffsetColumns > 0 && col > 0 {
      col := col + config.lintOffsetColumns;
    }
    var lnum := entry.lnum;
    if lnum == 0 {
      lnum := 1;
    }
    line := lnum - 1 - config.lintOffset;
    if col == 0 {
      col := 1;
    } else {
      word := WordAt(ctx.file, Position(line, col - 1), ctx.env.cls);
    }
    character := col - 1;
  }

  /** The body of the scanner loop for one entry. */
  method ProcessEntry(ctx: LintContext, config: Language, rootPath: string, entry: Entry) returns (r: EntryResult)
    ensures r == MapEntry(ctx, config, rootPath, entry)
  {
    if !entry.valid {
      return Skip;
    }
    var filename := entry.filename;
    if config.lintStdin && IsFilename(filename) {
      filename := ctx.fname;
      var path := Abs(ctx.env.cwd, filename);
      if path != ctx.fname {
        return Skip;
      }
    }
    assert EntryFilename(ctx, config, entry) == Some(filename);
    var line, character, word := PlaceEntry(ctx, config, entry);
    var diagURI := ctx.uri;
    if filename != "" {
      if IsAbs(filename) {
        diagURI := ToURI(filename);
      } else {
        diagURI := ToURI(Paths.Join(rootPath, filename));
      }
    }
    assert diagURI == DiagnosticURI(ctx.uri, rootPath, filename);
    if diagURI != ctx.uri && !config.lintWorkspace {
      return Skip;
    }
    if !SeverityDefined(entry.typ, config.lintCategoryMap) {
      return Panic;
    }
    var d := Diagnostic(
      Range(Position(line, character), Position(line, character + |word|)),
      GetSeverity(entry.typ, config.lintCategoryMap, config.lintSeverity),
      ItoaPtrIfNotZero(entry.nr),
      SourceOf(config),
      MessagePrefix(config) + entry.text);
    assert d == EntryDiagnostic(ctx, config, entry);
    return Target(diagURI, d);
  }

  /**
   * Filing one entry's result: a target's diagnostic is appended to its URI's list and,
   * for a workspace config, the URI is recorded; a skipped entry changes nothing.
   */
  method AbsorbResult(acc: Acc, r: EntryResult, workspace: bool) returns (next: Acc)
    ensures next == Absorb(acc, r, workspace)
  {
    next := acc;
    if r.Target? {
      var diags := acc.diags;
      var published := acc.published;
      if workspace {
        published := published + {r.target};
      }
      diags := diags[r.target := (if r.target in diags then diags[r.target] else []) + [r.diagnostic]];
      next := Acc(diags, published);
    }
  }

  /** The scanner loop's body for the k-th entry. */
  method ProcessEntryAt(ctx: LintContext, config: Language, rootPath: string, entries: seq<Entry>, k: nat)
    returns (r: EntryResult)
    requires k < |entries|
    ensures r == EntryResults(ctx, config, rootPath, entries)[k]
  {
    r := ProcessEntry(ctx, config, rootPath, entries[k]);
    EntryResultsAt(ctx, config, rootPath, entries, k);
  }

  /** The scanner loop over one tool's entries. */
  method CollectDiagnostics(ctx: LintContext, config: Language, rootPath: string, entries: seq<Entry>, acc: Acc)
    returns (step: Step)
    ensures step == CollectEntries(EntryResults(ctx, config, rootPath, entries), config.lintWorkspace, 0, acc)
  {
    ghost var results := EntryResults(ctx, config, rootPath, entries);
    var current := acc;
    var k := 0;
    while k < |entries|
      invariant 0 <= k <= |entries|
      invariant CollectEntries(results, config.lintWorkspace, 0, acc) == CollectEntries(results, config.lintWorkspace, k, current)
    {
      var r := ProcessEntryAt(ctx, config, rootPath, entries, k);
      if r.Panic? {
        return Stop(Panicked);
      }
      current := AbsorbResult(current, r, config.lintWorkspace);
      k := k + 1;
    }
    return Continue(current);
  }

  /** One iteration of lintDocument's config loop. */
  method LintWithConfig(ctx: LintContext, config: Language, acc: Acc) returns (step: Step)
    ensures step == RunConfig(ctx, config, acc)
  {
    var diags := acc.diags;
    if config.lintWorkspace {
      diags := SeedLedger(diags, ctx.ledger);
    }
    if config.lintCommand == "" {
      return Continue(Acc(diags, acc.published));
    }
    var rootPath := FindRootPath(ctx.env.fs, ctx.fname, config, ctx.rootMarkers, ctx.rootPath);
    var command := config.lintCommand;
    if !config.lintStdin && !config.lintWorkspace && !Contains(command, "${INPUT}") {
      command := command + " ${INPUT}";
    }
    command := ReplaceCommandInputFilename(command, ctx.fname, rootPath);
    var formats := config.lintFormats;
    if |formats| == 0 {
      formats := DefaultFormats;
    }
    if !ctx.env.formatsOk(formats) {
      return Stop(Failed(InvalidErrorFormat(config.lintFormats)));
    }
    var run := ctx.env.run(Invocation(command, rootPath, config.env, if config.lintStdin then Some(ctx.file.text) else None));
    assert run == ctx.env.run(InvocationFor(ctx, config, rootPath));
    if run.Cancelled? {
      return Stop(Aborted);
    }
    if run.exitZero && !config.lintIgnoreExitCode {
      return Continue(Acc(diags, acc.published));
    }
    var entries := ctx.env.scan(formats, run.output);
    step := CollectDiagnostics(ctx, config, rootPath, entries, Acc(diags, acc.published));
  }

  /**
   * lintDocument: select the configs, run each tool and fold its entries into the map,
   * then replace the language's ledger when some config lints the workspace.
   */
  method LintDocument(h: LangHandler, uri: DocumentURI, event: EventType, env: Env) returns (outcome: LintOutcome)
    modifies h`lastPublishedURIs
    ensures LintResult(outcome, h.lastPublishedURIs)
      == Lint(h.files, h.configs, h.rootMarkers, h.rootPath, old(h.lastPublishedURIs), uri, event, env)
  {
    if uri !in h.files {
      return Halted(Failed(DocumentNotFound(uri)));
    }
    var f := h.files[uri];
    var path := FromURI(uri);
    if path.Failure? {
      return Halted(Failed(InvalidURI(uri)));
    }
    var fname := path.value;
    var configs := LintConfigsForDocument(env.fs, fname, f.languageID, h.configs, event);
    if |configs| == 0 {
      return Linted(map[]);
    }
    var ctx := LintContext(uri, fname, f, LedgerOf(h.lastPublishedURIs, f.languageID), h.rootMarkers, h.rootPath, env);
    var step := RunAll(ctx, configs);
    if step.Stop? {
      return Halted(step.halt);
    }
    var workspace := HasWorkspace(configs);
    if workspace {
      h.lastPublishedURIs := h.lastPublishedURIs[f.languageID := step.acc.published];
    }
    return Linted(step.acc.diags);
  }

  /** The publishing loop of runLintersPublishDiagnostics, over the map's keys in any order. */
  method PublishAll(diags: map<DocumentURI, seq<Diagnostic>>, uri: DocumentURI, version: int)
    returns (sent: seq<PublishDiagnosticsParams>, ghost order: seq<DocumentURI>)
    ensures PublishedOnce(diags, uri, version, sent, order)
    ensures |sent| == |diags|
  {
    sent, order := [], [];
    var pending := diags.Keys;
    while pending != {}
      invariant pending <= diags.Keys
      invariant |sent| == |order|
      invariant forall i :: 0 <= i < |order| ==> order[i] in diags && sent[i] == Publication(diags, order[i], uri, version)
      invariant forall u :: u in diags ==> (u in order <==> u !in pending)
      invariant forall i, j :: 0 <= i < j < |order| ==> order[i] != order[j]
      invariant |order| + |pending| == |diags|
      decreases |pending|
    {
      var key :| key in pending;
      sent := sent + [Publication(diags, key, uri, version)];
      order := order + [key];
      pending := pending - {key};
    }
  }

  /**
   * runLintersPublishDiagnostics: lint the document; an error or an aborted run publishes
   * nothing; otherwise each key of the map is published once, "file:" under the
   * document's URI, with the document's version.
   */
  method RunLintersPublishDiagnostics(h: LangHandler, uri: DocumentURI, event: EventType, env: Env)
    returns (sent: seq<PublishDiagnosticsParams>, ghost order: seq<DocumentURI>)
    modifies h`lastPublishedURIs
    ensures var r := Lint(h.files, h.configs, h.rootMarkers, h.rootPath, old(h.lastPublishedURIs), uri, event, env);
      && h.lastPublishedURIs == r.lastPublishedURIs
      && (!r.outcome.Linted? ==> sent == [])
      && (r.outcome.Linted? ==> PublishedOnce(r.outcome.diagnostics, uri, PublishVersion(h.files, uri), sent, order))
  {
    var outcome := LintDocument(h, uri, event, env);
    if !outcome.Linted? {
      return [], [];
    }
    var version := 0;
    if uri in h.files {
      version := h.files[uri].version;
    }
    sent, order := PublishAll(outcome.diagnostics, uri, version);
  }

  /** The config loop of lintDocument, stopped by the first error, cancellation or panic. */
  method RunAll(ctx: LintContext, configs: seq<Language>) returns (step: Step)
    ensures step == RunConfigs(ctx, configs, 0, Start(ctx))
  {
    var acc := Start(ctx);
    var i := 0;
    while i < |configs|
      invariant 0 <= i <= |configs|
      invariant RunConfigs(ctx, configs, 0, Start(ctx)) == RunConfigs(ctx, configs, i, acc)
    {
      step := LintWithConfig(ctx, configs[i], acc);
      i := i + 1;
      if step.Stop? {
        return;
      }
      acc := step.acc;
    }
    return Continue(acc);
  }

  /** The ledger loop of lintDocument: whether some selected config lints the workspace. */
  method HasWorkspace(configs: seq<Language>) returns (found: bool)
    ensures found <==> AnyWorkspace(configs)
  {
    var j := 0;
    while j < |configs|
      invariant 0 <= j <= |configs|
      invariant forall k :: 0 <= k < j ==> !configs[k].lintWorkspace
    {
      if configs[j].lintWorkspace {
        return true;
      }
      j := j + 1;
    }
    return false;
  }
}
