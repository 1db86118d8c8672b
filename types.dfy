/**
 * types/core.go and types/lsp.go: the configuration records and the LSP values the
 * core exchanges, plus the results of the external tools, which the model takes as inputs.
 */
module Types {
  import opened Wrappers

  type DocumentURI = string

  /** The languages key whose configs apply to every document. */
  const Wildcard: string := "="

  datatype EventType = Change | Save | Open

  datatype Position = Position(line: int, character: int)

  datatype Range = Range(start: Position, end: Position)

  /** DiagnosticSeverity values; 0 in a Language's LintSeverity means unset. */
  const Error: int := 1
  const Warning: int := 2
  const Information: int := 3
  const Hint: int := 4

  datatype Diagnostic = Diagnostic(
    range: Range,
    severity: int,
    code: Option<string>,
    source: Option<string>,
    message: string)

  datatype TextEdit = TextEdit(range: Range, newText: string)

  datatype Language = Language(
    prefix: string,
    lintFormats: seq<string>,
    lintStdin: bool,
    lintOffset: int,
    lintOffsetColumns: int,
    lintCommand: string,
    lintIgnoreExitCode: bool,
    lintCategoryMap: map<string, string>,
    lintSource: string,
    lintSeverity: int,
    lintWorkspace: bool,
    lintAfterOpen: bool,
    lintOnSave: bool,
    formatCommand: string,
    formatCanRange: bool,
    formatStdin: bool,
    env: seq<string>,
    rootMarkers: seq<string>,
    requireMarker: bool)

  /** Languages and RootMarkers are pointers in the source; None stands for nil. Debounces are durations. */
  datatype Config = Config(
    version: int,
    logLevel: int,
    languages: Option<map<string, seq<Language>>>,
    rootMarkers: Option<seq<string>>,
    lintDebounce: int,
    formatDebounce: int)

  datatype InitializeOptions = InitializeOptions(documentFormatting: bool, rangeFormatting: bool)

  datatype InitializeParams = InitializeParams(rootURI: DocumentURI, initializationOptions: Option<InitializeOptions>)

  const TDSKFull: int := 1

  datatype ServerCapabilities = ServerCapabilities(
    textDocumentSync: int,
    documentFormattingProvider: bool,
    rangeFormattingProvider: bool)

  datatype PublishDiagnosticsParams = PublishDiagnosticsParams(uri: DocumentURI, diagnostics: seq<Diagnostic>, version: int)

  /**
   * One errorformat match: file name, line and column (0 when absent), type letter
   * ('\0' when absent), error number and message, and whether the match is valid.
   */
  datatype Entry = Entry(filename: string, lnum: int, col: int, typ: char, nr: int, text: string, valid: bool)

  /** One errorformat.Match of a single output line: file, line, column, type letter and message. */
  datatype EfmMatch = EfmMatch(f: string, l: int, c: int, t: char, m: string)

  /** A lint tool run: killed by cancellation (exit code < 0), or finished with its combined output. */
  datatype ToolRun = Cancelled | Finished(exitZero: bool, output: string)

  /**
   * A command run through exec: success with the output the caller reads, or failure with
   * the text of the error exec returned (such as "exit status 1") and what the command printed.
   */
  datatype FormatRun = FormatSucceeded(stdout: string) | FormatFailed(error: string, output: string)
}
