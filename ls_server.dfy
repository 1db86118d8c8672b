/**
 * The state and records of the langserver package's handler (the generation between
 * langserver/handler.go and core/): several configs per language, the "=" wildcard,
 * code-action commands, workspace folders and the same lint and format timers as the core.
 */
module LsServer {
  import opened Wrappers
  import opened Types
  import opened CoreHandler

  /** A code-action command: its title, command line, arguments and the operating systems it is offered on. */
  datatype Command = Command(title: string, command: string, arguments: seq<string>, os: string)

  /**
   * A langserver Language: the lint and format fields it shares with the core's Language,
   * plus the fields of the features only this generation has.
   */
  datatype LsLanguage = LsLanguage(
    base: Language,
    formatTrimFile: bool,
    symbolCommand: string,
    symbolStdin: bool,
    symbolFormats: seq<string>,
    completionCommand: string,
    completionStdin: bool,
    hoverCommand: string,
    hoverStdin: bool,
    hoverType: string,
    commands: seq<Command>)

  /** The lint and format fields of each config. */
  function Bases(cfgs: seq<LsLanguage>): (r: seq<Language>)
    ensures |r| == |cfgs| && forall i :: 0 <= i < |cfgs| ==> r[i] == cfgs[i].base
  {
    seq(|cfgs|, i requires 0 <= i < |cfgs| => cfgs[i].base)
  }

  function BaseConfigs(configs: map<string, seq<LsLanguage>>): (r: map<string, seq<Language>>)
    ensures r.Keys == configs.Keys && forall k :: k in configs ==> r[k] == Bases(configs[k])
  {
    map k | k in configs :: Bases(configs[k])
  }

  /** The settings of didChangeConfiguration; None stands for a nil pointer. */
  datatype LsConfig = LsConfig(
    languages: Option<map<string, seq<LsLanguage>>>,
    rootMarkers: Option<seq<string>>,
    commands: Option<seq<Command>>,
    logLevel: int,
    lintDebounce: int,
    formatDebounce: int,
    logFile: string)

  datatype Location = Location(uri: DocumentURI, range: Range)

  datatype SymbolInformation = SymbolInformation(name: string, kind: int, location: Location)

  datatype CompletionItem = CompletionItem(labelText: string, insertText: string)

  datatype MarkupKind = PlainText | Markdown

  datatype MarkupContent = MarkupContent(kind: MarkupKind, value: string)

  datatype Hover = Hover(contents: MarkupContent, range: Range)

  datatype WorkspaceFolder = WorkspaceFolder(uri: DocumentURI, name: string)

  /** The langserver handler's fields that its requests read and write. */
  class LsHandler {
    var loglevel: int
    var configs: map<string, seq<LsLanguage>>
    var files: map<DocumentURI, FileRef>
    var commands: seq<Command>
    var rootPath: string
    var rootMarkers: seq<string>
    /** Workspace folders as file paths. */
    var folders: seq<string>
    var triggerChars: seq<string>
    var provideDefinition: bool
    /** The configuration file ":reload-config" reads. */
    var filename: string
    /** The file the logger writes to, "" for the initial writer. */
    var logFile: string
    var lintDebounce: int
    var lintTimer: Option<PendingLint>
    var formatDebounce: int
    var formatTimer: bool
    var lastPublishedURIs: map<string, set<DocumentURI>>
    /** The package-level running map, with cancel functions as handle numbers. */
    var running: map<DocumentURI, nat>
    var cancelled: set<nat>
    var nextHandle: nat

    /** Every running handle is live and belongs to one URI only. */
    predicate Valid()
      reads this
    {
      (forall u :: u in running ==> running[u] < nextHandle && running[u] !in cancelled)
      && (forall u, v :: u in running && v in running && u != v ==> running[u] != running[v])
      && (forall n :: n in cancelled ==> n < nextHandle)
    }
  }
}
