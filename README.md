# efm-langserver, modelled in Dafny

efm-langserver is a language server that runs user-configured command-line linters,
formatters and other tools, and turns their text output into Language Server Protocol
answers: diagnostics, text edits, symbols, hovers, completions, definitions and code
actions. This project models the server's decision logic and proves what it promises.

The repository holds three generations of the same handler, and each is modelled on its
own terms:

- `core/` (with `types/`): the newest. Several configs per language, the `"="` wildcard,
  the E/W/I/N severity letters, a debounced lint timer with a `running` map of cancel
  handles, the per-language ledger of published URIs, the format fold and the line diff.
  Modules `CoreHandler`, `CoreLinting`, `CoreFormatting`, `Placeholders`, `RowCol`, `Paths`.
- `langserver/` (all but `handler.go`): the middle generation, with the same lint and
  format cores plus symbols, hover, completion, definition (ctags), code actions,
  initialize, configuration changes and workspace folders. Modules `LsServer`,
  `LsLinting`, `LsFormatting`, `LsSymbol`, `LsHover`, `LsCompletion`, `LsDefinition`,
  `LsCodeAction`, `LsInitialize`, `LsWorkspace`. The lint run and the formatter fold here
  are proved equal to the core's specifications applied to the configs' lint and format
  fields. The formatting reply's edits come from this package's own `ComputeEdits`
  (`langserver/diff.go`), which is a parameter of the model, not the core's diff.
- `langserver/handler.go`: the oldest. One config per language id with `"_"` as fallback,
  the E/W/I/H severity letters, a single whole-document edit for formatting and a ctags
  symbol command written into the shared config. Module `LegacyHandler`.
- `diff/diff.go`: Myers' greedy shortest-edit-script search (E. W. Myers, "An O(ND)
  Difference Algorithm and Its Variations", 1986, section 2), with its furthest-point array
  updated in place, the backtrack over the saved copies, the operations and the LSP edits.
  Modules `DiffGraph`, `Diff`, `DiffEdits`, `DiffText`.

The outside world is a parameter. Process runs, the errorformat scanner (which reads a
lint tool's output under the config's formats), the filesystem and `exec.LookPath` are
functions passed in, and so are the word-character class and whether a regular
expression compiles. The code that works in place is imperative Dafny:

- the handlers are classes whose methods update their fields;
- the diff keeps its `array`;
- every loop of the source is a `while` or `for` loop.

Each such method is proved equal to a specification function, and the properties are
proved about those functions.

## Model

| member | source | states |
|---|---|---|
| CoreHandler.EscapeBracketsSpec | core/handler.go:325-330 | escapeBrackets escapes each bracket and nothing else: one extra character per bracket, and dropping the inserted backslashes gives the path back |
| CoreHandler.TemplateWithoutPlaceholders | core/handler.go:313-323 | a command holding none of ${INPUT}, ${FILEEXT}, ${FILENAME}, ${ROOT} is returned unchanged |
| CoreHandler.TemplateAppendedInput | core/linting.go:116-120 | the " ${INPUT}" appended to a '$'-free command becomes a space and the bracket-escaped file name |
| CoreHandler.ItoaPtrIfNotZero | core/handler.go:305-311 | no code for 0; otherwise a decimal text |
| CoreHandler.ItoaPtrIfNotZeroDecodes | core/handler.go:305-311 | a code is present exactly for a non-zero 64-bit number, and Atoi reads it back as that number |
| CoreHandler.MarkedAncestorDeepest | core/handler.go:262-294 | a non-empty root is a directory on the walk up that holds a marker, and no directory below it on the walk holds one |
| CoreHandler.MarkedAncestorComplete | core/handler.go:262-294 | if any directory on the walk up holds a marker, the walk finds one |
| CoreHandler.MatchRootSpec | core/handler.go:262-294 | matchRootPath finds a marked directory exactly when one exists on the walk, and then the deepest |
| CoreHandler.MatchRootPath | core/handler.go:262-294 | the directory loop, with its file and marker loops, returns the specified marked ancestor |
| Paths.DirDescends | core/handler.go:288-290 | filepath.Dir fixes only "." and "/" and shortens every other path, so the walk up ends |
| Paths.LiteralMatch | core/handler.go:276-284 | a marker with no wildcard, character class or escape matches exactly the entry of that name |
| CoreHandler.RootPathPrecedence | core/handler.go:180-189 | the tool's markers win when any is found above the file, the global markers only when none is, and the root path otherwise |
| CoreHandler.WordStartSpec | core/handler.go:206-215 | the word starts at a class boundary at or before the character, with no boundary between it and the character |
| CoreHandler.WordEndSpec | core/handler.go:208-218 | the word ends at the first later change of class that is not '_', or at the line end |
| CoreHandler.WordAt | core/handler.go:191-222 | the scan returns "" off the line or past its length, and otherwise the word of the specification |
| CoreHandler.ScanWord | core/handler.go:197-221 | the scan over one line returns the word of the specification, or "" when the character is out of range |
| CoreHandler.WordAtSpan | core/handler.go:191-222 | the word is chars[p..q] with p <= character <= q <= length, all of chars[p..character] in one class |
| Text.JoinSplit | core/handler.go:192 | joining strings.Split's parts with the separator gives the text back |
| CoreHandler.ScanFormatters | core/handler.go:91-101 | one language's scan reports a format command, and a range-capable one, exactly when its configs have them |
| CoreHandler.FormatCapabilities | core/handler.go:83-109 | document formatting is announced when the option asks or any config formats; range formatting when the option asks or a config can format a range |
| CoreHandler.LangHandler.constructor | core/handler.go:56-72 | the configuration's languages and root markers, no documents, no timers, no running lints |
| CoreHandler.LangHandler.Initialize | core/handler.go:74-110 | a root URI that is not a file URI fails; otherwise the root path is set and the capabilities are the specified ones |
| CoreHandler.LangHandler.UpdateConfiguration | core/handler.go:112-133 | languages and root markers are replaced when given, log level and debounces when positive, and nothing else changes |
| CoreHandler.LangHandler.ScheduleLinting | core/linting.go:25-49 | with a timer pending only the timer is reset, keeping its captured URI and event; otherwise a timer is armed for this URI and event |
| CoreHandler.LangHandler.FireLintTimer | core/linting.go:34-47 | the timer clears, the handle running for the captured URI is cancelled, and a fresh one is registered, so each URI has at most one |
| CoreHandler.LangHandler.OnCloseFile | core/handler.go:144-147 | the document is forgotten and nothing else changes |
| CoreHandler.LangHandler.OnSaveFile | core/handler.go:149-152 | a save lint is scheduled |
| CoreHandler.LangHandler.OnOpenFile | core/handler.go:154-164 | the document is stored, replacing any earlier entry, and a lint is scheduled |
| CoreHandler.LangHandler.OnUpdateFile | core/handler.go:166-178 | an unknown URI is an error that changes nothing; otherwise the text is replaced, the version only when given, and a lint is scheduled |
| Paths.URIRoundTrip | core/handler.go:238-260 | fromURI(toURI(p)) == p for an absolute or empty path |
| Paths.ToURIInjective | core/handler.go:252-260 | distinct paths have distinct URIs |
| CoreLinting.GetSeverity | core/linting.go:256-278 | E/W/I/N in either case give 1/2/3/4; another letter gives the configured severity when set, else Error |
| CoreLinting.SeverityInRange | core/linting.go:256-278 | with a configured severity that is unset or in 1..4, every severity lies in 1..4 |
| CoreLinting.LintConfigsMembers | core/linting.go:280-314 | a config is selected exactly when it is a language config passing the marker, event and command gates, or a wildcard config with a command |
| CoreLinting.EntryPlacement | core/linting.go:194-243 | a diagnostic starts at (line-1-LintOffset, col-1), with line 0 and column 0 read as 1 and the column offset added to positive columns; it spans the word there; it is filed under the document unless the config lints the workspace |
| CoreLinting.Seed | core/linting.go:103-109 | every ledger URI has a list afterwards, and no existing list is overwritten |
| CoreLinting.CollectEntriesGrows | core/linting.go:173-244 | folding one tool's entries only adds URIs and diagnostics, and adds no URI but the document's when every target is the document |
| CoreLinting.RunConfigGrows | core/linting.go:101-244 | one config only adds URIs, and without the workspace flag adds none but the document's |
| CoreLinting.RunConfigsInvariant | core/linting.go:101-245 | across the config loop URIs are only added, a workspace config puts every ledger URI among the keys, and without one only the document's URI is present |
| CoreLinting.CancelledAborts | core/linting.go:143-148 | a cancelled tool ends the whole run with neither map nor error, whatever came before or after |
| CoreLinting.ZeroExitSkipped | core/linting.go:154-159 | a zero exit without LintIgnoreExitCode contributes nothing beyond the seeding, and the next config still runs |
| CoreLinting.LintEarlyExits | core/linting.go:76-95 | a document that is not open fails with "document not found"; no applicable config gives an empty map |
| CoreLinting.LintResultShape | core/linting.go:97-254 | on success the document's URI is a key; without a workspace config it is the only key and the ledger is unchanged; with one, every previous ledger URI is a key, only this language's ledger is replaced, and its new URIs are all keys (FixedURIsCleared gives its exact contents) |
| CoreLinting.FixedURIsCleared | core/linting.go:99-106 | after a workspace run the new ledger is exactly the other URIs with a non-empty list, and a URI of the previous ledger that no tool reported on this time has an empty list, so its fixed errors are cleared |
| CoreLinting.PublishTargets | core/linting.go:58-60 | "file:" is published under the document's URI, every other key under its own, so two keys share a target only when they are "file:" and the document's URI |
| CoreLinting.FixedURIsPublishedEmpty | core/linting.go:51-106 | a URI of the previous ledger that no workspace tool reported on this time is sent an empty list with the document's version |
| CoreLinting.PublishAll | core/linting.go:57-73 | the loop sends one notification per key of the map, each key once, with its list and the version |
| CoreLinting.RunLintersPublishDiagnostics | core/linting.go:51-74 | an error or aborted run publishes nothing; otherwise each key is published once, and the ledger is the one lintDocument leaves |
| CoreLinting.SeedLedger | core/linting.go:103-109 | the seeding loop gives the specified seeded map |
| CoreLinting.PlaceEntry | core/linting.go:194-211 | the entry's start line, column and word are those of the specification |
| CoreLinting.ProcessEntry | core/linting.go:174-243 | the scanner body turns an entry into the specified target, skip or panic |
| CoreLinting.AbsorbResult | core/linting.go:231-243 | a target's diagnostic is appended to its URI's list and recorded for a workspace config; a skip changes nothing |
| CoreLinting.ProcessEntryAt | core/linting.go:174-244 | the scanner body for the k-th entry |
| CoreLinting.CollectDiagnostics | core/linting.go:173-244 | the scanner loop folds one tool's entries as specified, stopping at a panic |
| CoreLinting.LintWithConfig | core/linting.go:101-244 | one iteration of the config loop is the specified step |
| CoreLinting.RunAll | core/linting.go:101-245 | the config loop stops at the first error, cancellation or panic, as specified |
| CoreLinting.HasWorkspace | core/linting.go:248-253 | the ledger loop finds a workspace config exactly when one is selected |
| CoreLinting.LintDocument | core/linting.go:76-255 | lintDocument's outcome and new ledger are those of the Lint specification |
| CoreFormatting.FormatConfigsMembers | core/formatting.go:178-198 | a config is chosen exactly when it is a language config with a command whose marker requirement is met, or a wildcard config with a command |
| CoreFormatting.WholeDocumentCommand | core/formatting.go:107-134 | without a range the command does not depend on the working text |
| CoreFormatting.FormatStepShape | core/formatting.go:140-165 | a formatter that cannot run or fails leaves the working state alone; one that succeeds on the working text replaces it by its output with every "\r" removed, and the state is then formatted |
| CoreFormatting.FormatFromShape | core/formatting.go:64-166 | either no formatter succeeds on the text it is fed and the state is unchanged, or the final text is the "\r"-free output of the last formatter that succeeded, fed the text the formatters before it left, and every later one failed on that text |
| CoreFormatting.AllFailing | core/formatting.go:155-169 | when every formatter fails the text is never touched |
| CoreFormatting.FormatPlanOutcomes | core/formatting.go:36-176 | an unknown document or bad URI fails; no config gives nil edits; "not supported" exactly when no selected formatter succeeds on the stored text; otherwise the stored text is diffed against the last successful formatter's "\r"-free output |
| CoreFormatting.FoldOutcome | core/formatting.go:160-170 | from the stored text the fold ends formatted exactly when some formatter succeeds on it, and is otherwise the stored text |
| CoreFormatting.PlanFinalClean | core/formatting.go:165 | the text the plan diffs against holds no "\r" |
| CoreFormatting.FillOptions | core/formatting.go:77-105 | the option loop rewrites the command as specified, and skips the config when a key's patterns do not compile |
| CoreFormatting.FillRange | core/formatting.go:107-134 | both offsets are taken on the working text and the six range placeholders are filled |
| CoreFormatting.FormatWithConfig | core/formatting.go:65-166 | one iteration of the config loop is the specified step |
| CoreFormatting.RunFormatters | core/formatting.go:64-166 | the config loop is the specified fold from the original text |
| CoreFormatting.RangeFormatting | core/formatting.go:36-176 | the answer is that of the format plan |
| CoreFormatting.Formatting | core/formatting.go:18-34 | while the format timer is pending the answer is an empty list and nothing runs; otherwise the timer is armed and the plan answers |
| CoreFormatting.FireFormatTimer | core/formatting.go:27-31 | the gate opens again |
| Placeholders.OptionFills | core/formatting.go:91-104 | a matching placeholder becomes its replacement template expanded for that match, and the rest of the command is rewritten on its own: a true flag turns ${F:key} and ${F=key} into F, a false one ${F:!key} and ${F=!key}, another value v gives "F " and "F=" followed by v's expansion |
| Placeholders.ExpandPlain | core/formatting.go:91-104 | a value with no "$" is copied after the flag: "F v", "F=v" or "F" |
| Placeholders.ExpandLiteral | core/formatting.go:91-104 | a template with no "$" is copied as it is |
| Placeholders.ExpandUnknownName | core/formatting.go:91-104 | "$name" for a group the pattern lacks expands to nothing |
| Placeholders.ExpandDoubled | core/formatting.go:91-104 | "$$" expands to a single "$" |
| Placeholders.ValueMissingGroup | core/formatting.go:91-104 | an option value "a$b" fills ${F:key} with "F a": the "$b" names a group the pattern lacks |
| Placeholders.ValueDoubledDollar | core/formatting.go:91-104 | an option value "a$$b" fills ${F:key} with "F a$b" |
| Placeholders.ApplyOptionPasses | core/formatting.go:91-104 | one option's rewrite is its two pattern passes with the value's tails |
| Placeholders.OptionSkips | core/formatting.go:78-105 | a placeholder for another key is left for the final stripping |
| Placeholders.FillMatch | core/formatting.go:82-83 | a placeholder with the pattern's separator and key becomes its flag followed by the tail |
| Placeholders.FillMiss | core/formatting.go:82-85 | a placeholder with another separator or key does not match and stays |
| Placeholders.StripPlaceholder | core/formatting.go:136-138 | a closed ${...} is deleted whatever it holds, and stripping goes on after it |
| Placeholders.StripUnclosed | core/formatting.go:136-138 | a command with no closing brace keeps every character |
| RowCol.ClampRow | core/formatting.go:203-207 | the row clamped to [0, lines-1] |
| RowCol.ClampCol | core/formatting.go:209-213 | the column clamped to [0, line length] |
| RowCol.ConvertRowColToIndex | core/formatting.go:200-223 | the loop's offset is the sum of the clamped earlier lines' lengths plus one each, plus the clamped column |
| RowCol.RowColBounds | langserver/util.go:7-30 | the offset lies in [0, len(s)] |
| RowCol.RowColInLine | langserver/util.go:16-29 | the c characters before the offset are the first c characters of the clamped row |
| RowCol.RowColLineStart | langserver/util.go:7-30 | (0,0) is offset 0, and (r,0) is just after the r-th newline |
| RowCol.RowColMonotone | langserver/util.go:16-28 | on a fixed row the offset does not decrease as the column grows |
| RowCol.RowColClamps | langserver/util.go:10-20 | rows before the text act as the first row, rows after it as the last |
| DiffGraph.SnakeShared | diff/diff.go:195-199 | every line a diagonal run passes over is shared by a and b |
| DiffGraph.SnakeStops | diff/diff.go:195-199 | the run stops at a line that is not shared, or at the end of a or b |
| DiffGraph.ReachDiagonal | diff/diff.go:178-182 | a point reached with d moves lies on a diagonal in -d..d |
| DiffGraph.ReachParity | diff/diff.go:180-182 | a point on diagonal k is reached with moves of k's parity |
| DiffGraph.ReachCorner | diff/diff.go:178 | (len(a), len(b)) is reached with len(a)+len(b) moves |
| DiffGraph.OriginFurthest | diff/diff.go:186-201 | round 0 follows the shared lines from (0,0) |
| DiffGraph.RoundFurthest | diff/diff.go:186-201 | round d's start, one move from round d-1's furthest points, followed by its snake, is round d's furthest point on diagonal k |
| DiffGraph.NoHitUnreached | diff/diff.go:203-214 | a round that misses (len(a), len(b)) proves it needs more moves |
| Diff.ShortestEditSequence | diff/diff.go:171-217 | the saved copies of V are the rounds' furthest points, and the search stops at the first round that reaches (len(a), len(b)), so no shorter script exists |
| Diff.SearchRound | diff/diff.go:182-210 | one round over diagonals -d, -d+2, ..., d updates V by the rule, and a hit is (len(a), len(b)) |
| Diff.SearchDiagonal | diff/diff.go:186-209 | one diagonal's start, snake and hit test |
| Diff.Slide | diff/diff.go:195-199 | the diagonal loop ends at the end of the shared run |
| Diff.Backtrack | diff/diff.go:141-168 | from (len(a), len(b)) each round's point is linked by one edge and a snake to the previous round's, back to a first point reached from (0,0) |
| Diff.BackStep | diff/diff.go:150-161 | the rule applied to round d's copy picks round d-1's point, and an edge joins them |
| Diff.BackWalk | diff/diff.go:146-166 | the backtrack loop keeps the chain linked and stops at the first round or an edge of the grid |
| DiffEdits.WalkProgress | diff/diff.go:96-130 | one snake's delete, insert and equal loops keep the operations' invariant at the cost of their moves |
| DiffEdits.Walk | diff/diff.go:96-130 | the right moves become one delete, the down moves one insert, and the shared lines none |
| DiffEdits.Deletes | diff/diff.go:98-110 | the delete loop moves right while the snake's diagonal is to the right, stopping at the end of a |
| DiffEdits.Inserts | diff/diff.go:114-123 | the insert loop moves down while the snake's diagonal is to the left |
| DiffEdits.Diagonal | diff/diff.go:127-130 | the equal loop moves diagonally up to the snake's column |
| DiffEdits.Add | diff/diff.go:80-90 | a pending operation is finished at (i2, j2) and stored at i; none stores nothing |
| DiffEdits.Follow | diff/diff.go:91-135 | the snake loop yields ordered operations that turn a into b, costing at most the search's rounds |
| DiffEdits.Operations | diff/diff.go:67-136 | the operations are ordered, apply to a to give b, and cost as few lines as any edit script |
| DiffEdits.ShortestBelow | diff/diff.go:67-136 | a script of at most D lines, where D-1 lines cannot reach the end, is a shortest one |
| DiffText.SplitLinesParts | diff/diff.go:219-225 | splitLines' lines give the text back, none is empty, all but the last end in "\n", and only "" has none |
| DiffText.ComputeEdits | diff/diff.go:31-56 | the edits are ordered whole-line edits that turn before into after, and there are none when the texts are equal |
| DiffText.EditsApply | diff/diff.go:34-54 | the edits of the operations apply to the old lines as the operations do |
| DiffText.SameNoOps | diff/diff.go:31-56 | a shortest script from a text to itself is empty |
| LsLinting.ScheduleLinting | langserver/linting.go:22-41 | with a timer pending only the timer is reset; otherwise a timer is armed for this URI and event |
| LsLinting.FireLintTimer | langserver/linting.go:29-39 | the timer clears, the running handle for the URI is cancelled and replaced, one per URI |
| LsLinting.LintDocument | langserver/linting.go:69-249 | outcome and ledger equal the core's Lint on the configs' lint fields |
| LsFormatting.RangeOf | langserver/handle_text_document_formatting.go:153 | the range placeholders are filled exactly when the start line is not -1 |
| LsFormatting.LsFormatConfigsBases | langserver/handle_text_document_formatting.go:79-96 | the selection keeps the same configs, in order, as the core's formatConfigsForDocument |
| LsFormatting.SelectFormatConfigs | langserver/handle_text_document_formatting.go:79-96 | the two selection loops give the specified configs |
| LsFormatting.SelectLanguageConfigs | langserver/handle_text_document_formatting.go:80-89 | a language config is kept when it has a command and its marker requirement is met |
| LsFormatting.SelectWildcardConfigs | langserver/handle_text_document_formatting.go:90-96 | a wildcard config is kept when it has a command |
| LsFormatting.FormatWithConfig | langserver/handle_text_document_formatting.go:110-216 | one iteration equals the core's step on the config's format fields; the trim is overwritten at once |
| LsFormatting.RunFormatters | langserver/handle_text_document_formatting.go:109-216 | the loop equals the core's fold |
| LsFormatting.RangeFormatting | langserver/handle_text_document_formatting.go:64-226 | the answer is the core's format plan, with the -1 range standing for no range, and when the plan diffs, the edits langserver's ComputeEdits gives from the stored to the final text |
| LsFormatting.RangeFormatRequest | langserver/handle_text_document_formatting.go:46-62 | a pending format timer gives an empty list and runs nothing; otherwise the timer is armed and the plan answers, its diff made by langserver's ComputeEdits |
| LsFormatting.DocumentFormatting | langserver/handle_text_document_formatting.go:19-31 | a whole-document request fills no range placeholder, and is otherwise answered as a range request |
| LsSymbol.SymbolConfigsMembers | langserver/handle_text_document_symbol.go:77-100 | configs with a symbol command, language then wildcard, are chosen; with none the ctags default alone is |
| LsSymbol.WithSymbolCommandMembers | langserver/handle_text_document_symbol.go:78-84 | a config is kept exactly when it has a symbol command |
| LsSymbol.SymbolOfSpec | langserver/handle_text_document_symbol.go:142-187 | a match at the document becomes a zero-width symbol at (L-1-LintOffset, C-1), named after the first '!', of the named kind or "key" |
| LsSymbol.FailureKept | langserver/handle_text_document_symbol.go:115-119 | an invalid errorformat ends the whole request with that error |
| LsSymbol.ConfigsSymbolsAtDocument | langserver/handle_text_document_symbol.go:103-190 | every symbol collected lies at the document on a zero-width range |
| LsSymbol.SymbolsOutcomes | langserver/handle_text_document_symbol.go:61-193 | an unknown document or a non-file URI fails; every symbol of a success lies in the document on a zero-width range |
| LsSymbol.CollectSymbolConfigs | langserver/handle_text_document_symbol.go:78-84 | the selection loop keeps the configs with a symbol command |
| LsSymbol.MatchLine | langserver/handle_text_document_symbol.go:142-188 | every errorformat is tried on one line, as specified |
| LsSymbol.ParseOutput | langserver/handle_text_document_symbol.go:140-189 | the scanner loop gives the specified symbols of the output's lines |
| LsSymbol.RunSymbolConfig | langserver/handle_text_document_symbol.go:104-189 | one config's run: a failing command contributes nothing |
| LsSymbol.SelectSymbolConfigs | langserver/handle_text_document_symbol.go:77-100 | the selection loops and the ctags default |
| LsSymbol.RunSymbolConfigs | langserver/handle_text_document_symbol.go:103-190 | the config loop returns a failure at once and otherwise accumulates |
| LsSymbol.Symbol | langserver/handle_text_document_symbol.go:61-193 | symbol's answer is the specified one |
| LsCodeAction.OfferedSpec | langserver/handle_text_document_code_action.go:155-176 | every offered action encodes a command available on the OS, and every such command is offered |
| LsCodeAction.DecodeEncoded | langserver/handle_text_document_code_action.go:45-49 | decoding an encoded action gives back its command name and URI when neither holds a tab |
| LsCodeAction.LookupSpec | langserver/handle_text_document_code_action.go:51-91 | a command held by the language's configs, the wildcard's or the global list is found under its name, searched in that order |
| LsCodeAction.FindCommandSpec | langserver/handle_text_document_code_action.go:82-87 | a command is found exactly when the list holds one of that name, and the one found has it |
| LsCodeAction.FindInConfigsSpec | langserver/handle_text_document_code_action.go:56-66 | a command is found exactly when some config holds one of that name, and the one found is held and has it |
| LsCodeAction.ExpandArgumentsSpec | langserver/handle_text_document_code_action.go:113-123 | each argument appears twice, templated; expansion fails exactly when a templated argument needs the missing file name |
| LsCodeAction.OfferedRoundTrip | langserver/handle_text_document_code_action.go:29-198 | executing what codeAction offers for an open document finds the command it encodes |
| LsCodeAction.MatchesOS | langserver/handle_text_document_code_action.go:158-164 | the OS loop finds the running OS among the comma-separated names |
| LsCodeAction.FilterCommands | langserver/handle_text_document_code_action.go:155-176 | the loop gives the specified offered commands |
| LsCodeAction.CollectConfigCommands | langserver/handle_text_document_code_action.go:187-196 | the commands of one key's configs, filtered |
| LsCodeAction.CodeAction | langserver/handle_text_document_code_action.go:178-198 | an unknown document fails; otherwise global, language and wildcard commands in that order |
| LsCodeAction.FindIn | langserver/handle_text_document_code_action.go:82-87 | the first command of the name |
| LsCodeAction.FindInEach | langserver/handle_text_document_code_action.go:56-66 | the first config holding the name ends the labelled loop |
| LsCodeAction.BuildArguments | langserver/handle_text_document_code_action.go:112-124 | the argument loop gives the specified expansion |
| LsCodeAction.PlanCommand | langserver/handle_text_document_code_action.go:29-93 | the checks and lookups before anything runs |
| LsCodeAction.ExecuteCommand | langserver/handle_text_document_code_action.go:29-153 | a shell command runs in the root path and answers its output, or fails with the error exec returned; an internal one answers "OK", and ":reload-config" replaces the settings |
| LsHover.LineValidNarrowsAsWritten | langserver/handle_text_document_hover.go:48-51 | the corrected line check accepts what the written one does except the line one past the end |
| LsHover.AsWrittenAcceptsPastEnd | langserver/handle_text_document_hover.go:48-51 | the written check accepts line 1 of the one-line text "a" |
| LsHover.SpanSpec | langserver/handle_text_document_hover.go:55-76 | the span encloses the character and cuts out the same word as the core's wordAt |
| LsHover.HoverSpan | langserver/handle_text_document_hover.go:55-75 | the boundary loop returns the specified span |
| LsHover.HoverOutcomes | langserver/handle_text_document_hover.go:31-155 | an unknown document, a non-file URI, a line or a character off the text fails; no hover command gives nil; otherwise the first config's command runs on the word at the position, a failure fails with the error exec returned, and a success hovers the trimmed output over the word's span on that line, as markdown exactly when the config says so |
| LsHover.WithHoverCommandMembers | langserver/handle_text_document_hover.go:79-85 | a config is kept exactly when it has a hover command |
| LsHover.CollectHoverConfigs | langserver/handle_text_document_hover.go:79-85 | the selection loop keeps the configs with a hover command |
| LsHover.SelectHoverConfigs | langserver/handle_text_document_hover.go:78-92 | the two selection loops |
| LsHover.HoverAt | langserver/handle_text_document_hover.go:31-155 | hover's answer is the specified one |
| LsDefinition.PlainWordEndSpec | langserver/handle_text_document_definition.go:128-142 | the word ends at the first change of class after the character |
| LsDefinition.PlainEndBeforeWordEnd | langserver/handle_text_document_definition.go:128-142 | without hover's underscore rule the word is never longer |
| LsDefinition.DefinitionSpan | langserver/handle_text_document_definition.go:125-142 | the boundary loop returns the specified span |
| LsDefinition.TagsDirSpec | langserver/handle_text_document_definition.go:94-109 | findTags returns the nearest directory on the walk up that holds "tags", and "" only when no directory the walk visits holds one; the root path stops the walk unless it starts there |
| LsDefinition.TagsDirNearest | langserver/handle_text_document_definition.go:94-109 | a returned directory is the k-th ancestor, visited by the walk, holding "tags", with none of the earlier ancestors holding one |
| LsDefinition.TagsDirComplete | langserver/handle_text_document_definition.go:101-105 | when the walk gives up, no directory it visited holds "tags" |
| LsDefinition.FindTags | langserver/handle_text_document_definition.go:94-109 | the loop returns the specified directory |
| LsDefinition.TagLocationsSpec | langserver/handle_text_document_definition.go:44-89 | a comment, a short line or another name gives nothing; a tag line's locations are zero-width at column 0 of the file its second field names |
| LsDefinition.TagsLocationsCover | langserver/handle_text_document_definition.go:43-90 | once the tags file gives locations, every line of it gave some and all of them are among the file's |
| LsDefinition.TagsLocationsFrom | langserver/handle_text_document_definition.go:43-90 | every location of the tags file comes from one of its tag lines for the word |
| LsDefinition.TagsAtLineStarts | langserver/handle_text_document_definition.go:43-90 | the tags file gives exactly the locations of its tag lines for the word: each at column 0, each from such a line, and every one of them listed |
| LsDefinition.DefinitionOutcomes | langserver/handle_text_document_definition.go:111-159 | an unknown document or a position off the text fails; a non-file URI or a walk without a tags file gives nil; an unreadable tags file fails; otherwise the list is exactly the locations of the tag lines naming the word under the cursor |
| LsDefinition.SearchPattern | langserver/handle_text_document_definition.go:65-75 | one location per line the pattern matches |
| LsDefinition.ResolveAddress | langserver/handle_text_document_definition.go:60-88 | a "/" address searches the lines, any other is read as a 1-based line number, and the line before it is taken in int64 arithmetic |
| LsDefinition.AddressOverflowSkipped | langserver/handle_text_document_definition.go:77-80 | a line number of twenty digits or more is too large for a 64-bit int, Atoi fails, and the tag line gives no location |
| LsDefinition.AddressMinWraps | langserver/handle_text_document_definition.go:81-87 | the address of the least int64 gives the greatest int64 as its line, as `i - 1` wraps round |
| Text.AtoiNumeral | langserver/handle_text_document_definition.go:77 | strconv.Atoi reads an optional sign and digits as their value exactly when it fits in 64 bits, and fails otherwise |
| Text.AtoiRejectsLong | langserver/handle_text_document_definition.go:77 | twenty digits or more without a leading zero, signed or not, are out of Atoi's range |
| LsDefinition.ReadTagLine | langserver/handle_text_document_definition.go:44-89 | comments, short lines, other names and unreadable files give no location |
| LsDefinition.MissingKept | langserver/handle_text_document_definition.go:60 | an empty address among the lines read is the outcome of all of them |
| LsDefinition.ScanTagLines | langserver/handle_text_document_definition.go:43-90 | the scanner loop gives the specified locations |
| LsDefinition.ScanTags | langserver/handle_text_document_definition.go:34-92 | an unreadable tags file fails; otherwise its lines are scanned |
| LsDefinition.Definition | langserver/handle_text_document_definition.go:111-159 | definition's answer is the specified one |
| LsCompletion.WithCompletionCommandMembers | langserver/handle_text_document_completion.go:47-61 | the configs with a completion command are kept, language ones first |
| LsCompletion.CompletionCommandPlain | langserver/handle_text_document_completion.go:75-83 | a '$'-free command runs on the escaped file name, or as it is on stdin |
| LsCompletion.CompletionConfigsFirst | langserver/handle_text_document_completion.go:47-68 | the config used has a completion command, and is the language's own when it has one |
| LsCompletion.CompletionPositionFilled | langserver/handle_text_document_completion.go:77-79 | ${POSITION} becomes "line:character" |
| LsCompletion.ItemsOfOutput | langserver/handle_text_document_completion.go:105-112 | one item per scanned line, its label and insert text that line |
| LsCompletion.ItemsOfLines | langserver/handle_text_document_completion.go:107-111 | one item per line, its label and insert text that line |
| Text.TrimSpaceSpec | langserver/handle_text_document_hover.go:137 | strings.TrimSpace keeps a slice of the text: everything cut from either end is white space, and a non-empty result starts and ends with a non-space |
| Text.ScanLines | langserver/handle_text_document_completion.go:106-112 | bufio's line scanner yields the newline-separated parts with a trailing "\r" dropped, and no empty last part |
| LsCompletion.CompletionOutcomes | langserver/handle_text_document_completion.go:31-117 | an unknown document or non-file URI fails; no completion command gives nil; otherwise the first config's command runs, a failure fails with "completion command failed: " followed by the exec error and the output, and a success gives exactly one item per scanned output line, that line as both label and insert text |
| LsCompletion.CollectCompletionConfigs | langserver/handle_text_document_completion.go:48-53 | the selection loop keeps the configs with a completion command |
| LsCompletion.CollectItems | langserver/handle_text_document_completion.go:105-112 | the scanner loop gives one item per line |
| LsCompletion.Completion | langserver/handle_text_document_completion.go:31-117 | completion's answer is the specified one |
| LsInitialize.CommandInMembers | langserver/handle_initialize.go:51-66 | a feature is announced from the configs exactly when some config of some language has its command |
| LsInitialize.CompletionAnnounced | langserver/handle_initialize.go:68-76 | a completion provider is announced exactly when asked or configured, with "." or the configured trigger characters |
| LsInitialize.CompletionOption | langserver/handle_initialize.go:68-76 | a completion provider exactly when a completion command exists, with the specified trigger characters |
| LsInitialize.FormattingAsCore | langserver/handle_initialize.go:62-64 | document formatting is announced exactly when the core's initialize would announce it |
| LsInitialize.ScanLanguage | langserver/handle_initialize.go:52-65 | the inner loop finds each feature's command in one language's configs |
| LsInitialize.ScanConfigs | langserver/handle_initialize.go:51-66 | the outer loop finds each feature's command over all languages |
| LsInitialize.ComputeCapabilities | langserver/handle_initialize.go:35-94 | the capabilities are the specified announcement |
| LsInitialize.Initialize | langserver/handle_initialize.go:12-95 | missing parameters are refused; a bad root URI fails; a root URI sets the root path and adds the folder |
| LsWorkspace.RemovalPassMembers | langserver/handle_workspace_did_change_workspace_folders.go:25-31 | as written, a folder survives exactly when some removed entry names a different folder |
| LsWorkspace.AddedPassMembers | langserver/handle_workspace_did_change_workspace_folders.go:32-45 | an added folder appears exactly when it is a file URI no old folder has |
| LsWorkspace.KeptForMembers | langserver/handle_workspace_did_change_workspace_folders.go:26-30 | a folder is kept exactly when its URI is not the removed one |
| LsWorkspace.AsWrittenRemoval | langserver/handle_workspace_did_change_workspace_folders.go:25-31 | with nothing removed every folder is lost; with two removals a survivor is listed twice |
| LsWorkspace.RemovalTwice | langserver/handle_workspace_did_change_workspace_folders.go:25-31 | a folder that neither of two removed entries names comes out twice |
| LsWorkspace.SurvivorsSpec | langserver/handle_workspace_did_change_workspace_folders.go:25-31 | the corrected removal keeps exactly the folders no removed entry names |
| LsWorkspace.FindFolder | langserver/handle_workspace_did_change_workspace_folders.go:33-39 | whether an old folder has the URI |
| LsWorkspace.KeepOthers | langserver/handle_workspace_did_change_workspace_folders.go:26-30 | the folders whose URI is not the removed one |
| LsWorkspace.ComputeFolders | langserver/handle_workspace_did_change_workspace_folders.go:24-45 | the two loops give the specified folder list |
| LsWorkspace.RemoveEach | langserver/handle_workspace_did_change_workspace_folders.go:25-31 | the removal loop gives the as-written removal pass |
| LsWorkspace.AddEach | langserver/handle_workspace_did_change_workspace_folders.go:32-45 | the adding loop appends the specified new folders to what it starts from |
| LsWorkspace.DidChangeWorkspaceFolders | langserver/handle_workspace_did_change_workspace_folders.go:10-48 | missing parameters are refused; otherwise the folders become the computed list |
| LsWorkspace.KeepSurvivors | langserver/handle_workspace_did_change_workspace_folders.go:25-31 | the corrected loop keeps the survivors |
| LsWorkspace.AppliedSpec | langserver/handle_workspace_did_change_configuration.go:26-63 | applying a configuration is idempotent, an empty one changes nothing, and what it sets is what it gives |
| LsWorkspace.DidChangeConfiguration | langserver/handle_workspace_didChangeConfiguration.go:10-44 | languages and markers when given, log level and debounces when positive |
| LsWorkspace.ApplyFields | langserver/handle_workspace_did_change_configuration.go:26-55 | the handler's settings become the applied configuration |
| LsWorkspace.DidChangeConfigurationWithLog | langserver/handle_workspace_did_change_configuration.go:13-63 | as above, plus the commands when given and the log file when it opens |
| LegacyHandler.ConfigKey | langserver/handler.go:138-147 | the key chosen is always a configured one |
| LegacyHandler.Selected | langserver/handler.go:138-147 | a config is found exactly when the language's or the "_" config has the command; the language's own wins |
| LegacyHandler.OldCommandAppends | langserver/handler.go:157-167 | a '$'-free command gets " fname" appended |
| LegacyHandler.OldCommandReplaces | langserver/handler.go:159-161 | a command that is ${INPUT} becomes the file name |
| LegacyHandler.SeverityOf | langserver/handler.go:220-230 | E/W/I/H in either case give 1/2/3/4, anything else 1 |
| LegacyHandler.MatchDiagnostic | langserver/handler.go:195-238 | a match is kept exactly when its path, stdin read as the document, is the document; it sits on a zero-width range at (L-1-LintOffset, C-1) |
| LegacyHandler.LineDiagnosticsPlaced | langserver/handler.go:196-239 | every diagnostic of one output line is zero-width with severity 1..4 |
| LegacyHandler.OutputDiagnosticsPlaced | langserver/handler.go:195-240 | every diagnostic of the output is zero-width with severity 1..4 |
| LegacyHandler.LintOutcomes | langserver/handler.go:132-243 | an unknown document fails, no lint command is "not supported", a zero exit without the ignore flag gives no diagnostics |
| LegacyHandler.FormatOutcomes | langserver/handler.go:275-334 | an unknown document fails, no format command is "not supported", a non-file URI fails; otherwise a failing formatter fails with its output, and a success is one edit from (0,0) to the line past the last at the last line's length, whose text is the output with its "\r" removed: no "\r", every other character as often as in the output |
| Text.ReplaceCharDrops | core/formatting.go:165 | replacing a character by nothing drops exactly its occurrences, keeps every other character as often, and is idempotent |
| LegacyHandler.OldSymbolOfSpec | langserver/handler.go:418-437 | a match at the document with a '!' becomes a zero-width symbol named after it, of the named kind or "file" (1) |
| LegacyHandler.OldSymbolsAtDocument | langserver/handler.go:410-439 | every symbol lies at the document |
| LegacyHandler.SymbolOutcomes | langserver/handler.go:336-442 | the chosen config holds a symbol command afterwards, no other config changes, a failing command fails with the error exec returned, and every symbol lies at the document |
| LegacyHandler.OldHandler.constructor | langserver/handler.go:44-57 | the given languages, no documents, no requests |
| LegacyHandler.OldHandler.OpenFile | langserver/handler.go:255-262 | the document is stored with an empty text |
| LegacyHandler.OldHandler.UpdateFile | langserver/handler.go:264-273 | an unknown URI fails and changes nothing; otherwise the text is replaced and a lint request queued |
| LegacyHandler.OldHandler.CloseFile | langserver/handler.go:245-248 | the document is forgotten |
| LegacyHandler.OldHandler.SaveFile | langserver/handler.go:250-253 | a lint request is queued |
| LegacyHandler.OldHandler.MatchLine | langserver/handler.go:196-239 | the errorformat loop gives the specified diagnostics of one line |
| LegacyHandler.OldHandler.ParseLint | langserver/handler.go:195-240 | the line loop gives the specified diagnostics of the output |
| LegacyHandler.OldHandler.LookupConfig | langserver/handler.go:138-147 | the config lookup with the "_" fallback |
| LegacyHandler.OldHandler.Lint | langserver/handler.go:132-243 | lint's answer is the specified one |
| LegacyHandler.OldHandler.LinterStep | langserver/handler.go:111-130 | the oldest request is taken and linted, and its diagnostics published |
| LegacyHandler.OldHandler.FormatFile | langserver/handler.go:275-334 | formatFile's answer is the specified one |
| LegacyHandler.OldHandler.ParseSymbols | langserver/handler.go:410-439 | the scanner loop gives the specified symbols |
| LegacyHandler.OldHandler.Symbol | langserver/handler.go:336-442 | symbol's answer is the specified one, and the chosen config gets the default command when it had none |
| LegacyHandler.OldHandler.SymbolOfMatch | langserver/handler.go:401-437 | one matched ctags line gives the specified symbol, or none when its path is not the file or it lacks a "!" |

## Left out

- Process execution, the errorformat library, the filesystem and `exec.LookPath` are
  parameters; of regular expressions only whether a pattern compiles is a parameter, and
  UTF-16 encoding is not modelled.
  String lengths count `char`s, where the source counts UTF-16 units or bytes.
- Logging, the JSON-RPC transport, request decoding and the method dispatch are not modelled.
- Goroutines, mutexes and timer callbacks are not modelled. Timers are flags or a captured
  URI and event, and the `running` map holds handle numbers.
- The linter goroutine and request channel of `langserver/handler.go` are a queue of URIs.
  `LinterStep` takes one request per turn.
- The Windows branches are not modelled: drive-letter URIs, `cmd /c`, case folding and
  `EqualFold`.
- `filepath.Clean` and `filepath.ToSlash` are the identity; paths are taken as clean and
  slash-separated.
- Percent-encoding in URIs is not modelled. `url.ParseRequestURI` is approximated by
  "file://" followed by a path.
- Go map iteration order is not modelled. The loops over the handler's maps are proved
  for every order, through sets of pending keys, and the formatting options are walked in
  the order given as a parameter.
- CoreFormatting.ApplyRange fills the six range placeholders of `core/formatting.go:112-133`
  in one fixed order (charStart, charEnd, rowStart, colStart, rowEnd, colEnd), where the
  source walks a Go map in an unspecified order. The order matters only when one filled
  placeholder forms another, as in `${${x:charStart}:charEnd}`.
- Placeholders treats a formatting option's key as literal text. The source splices the key
  unescaped into a regular expression (`core/formatting.go:82-85`), so a key holding
  regular-expression syntax can match other placeholders. Only whether the patterns
  compile is modelled, as the parameter `keyOk`.
- OptionFills states the result of the first (":") pass over a placeholder when its
  expansion holds no "$". When it does, the "=" pass runs over that text again, as
  ApplyOption models and ValueDoubledDollar shows for one case.
- Placeholders.Expand takes a group name to be ASCII letters, digits and "_", where Go's
  regexp.Expand also accepts other Unicode letters and digits.
- Paths.Match models the wildcards "*" and "?" only. Character classes "[...]", "\"
  escapes and ErrBadPattern (on which the source's `filepath.Match` reports no match) are
  not modelled; Paths.LiteralMatch excludes them.
- Text.ToLower folds only ASCII letters, where Go's `unicode.ToLower` folds every letter.
  It lower-cases ctags symbol kinds.
- Text.TrimSpace works on code points. `unicode.IsSpace` is modelled exactly, but invalid
  UTF-8 bytes are not.
- `bufio.Scanner`'s 64 KiB token limit is not modelled.
- The langserver handlers call langserver's own `findRootPath` and
  `replaceCommandInputFilename`, whose definitions are not part of this model. The model
  uses the core's (`core/handler.go:180-189` and `core/handler.go:313-323`), and so
  assumes the two packages' copies behave alike.
- `LoadConfig`, YAML parsing and opening the log file are inputs (`canOpen`, the reloaded
  configuration).
- `lsp/*`, `main.go` and the `handle_*` unmarshal wrappers are not modelled.
- `langserver/handler.go`'s `completion`, `hover` and `configFor` are not modelled. They
  are the older copies of the handle_* files modelled in `LsCompletion` and `LsHover`.
- LsHover.HoverOf and LsDefinition.DefinitionOf answer `InvalidPosition` for the line one
  past the end, where the source indexes out of range and panics. See Findings.
- LsDefinition.AddressLocations answers `AddressMissing` for a tag line with an empty
  address, where the source indexes `token[2][0]` and panics.
- LsInitialize.Initialize takes the initialization options as given. A request without
  them dereferences a nil pointer in the source, and that is not modelled.
- LsCompletion.Completion never reaches the final "not supported" error, because every
  selected config has a completion command.
- LegacyHandler: `langserver/handler.go` holds configs as pointers, and a nil entry is not
  modelled. The fixed symbol errorformat is assumed to compile.
- LegacyHandler.WholeEdit ends the edit at line len(lines) with the last line's length. It
  is modelled as written, past the end of the document.
- `langserver/diff.go` is not part of this model. Its `ComputeEdits` is the parameter
  `lsDiff` of LsFormatting.RangeFormatting, LsFormatting.RangeFormatRequest and
  LsFormatting.DocumentFormatting, whose replies are stated in its terms. It is not the
  core's diff: `langserver/diff_test.go:35-51` expects "foo\nbar\nbaz\n" to
  "one\ntwo\nthree\n" to give one delete and three inserts at line 3 in the order
  "three", "two", "one"; the two diffs are not claimed to agree.
- LsInitialize.Initialize: langserver's `addFolder`, called at
  `langserver/handle_initialize.go:32`, is not part of this model. The model appends the
  root path to the folders, and so assumes it neither deduplicates nor rewrites the path.

## Findings

| source | as written | input that shows it | evidently intended | confidence | as-written member | corrected member |
|---|---|---|---|---|---|---|
| langserver/handle_text_document_hover.go:48-51 | `Line > len(lines)` accepts the line one past the end, and `lines[Line]` then indexes out of range | text "a", position line 1 | reject `Line >= len(lines)` with "invalid position" | not executed | LsHover.AsWrittenAcceptsPastEnd | LsHover.LineValidNarrowsAsWritten |
| langserver/handle_text_document_definition.go:118-121 | the same `Line > len(lines)` check before `lines[Line]` | text "a", position line 1 | reject `Line >= len(lines)` with "invalid position" | not executed | LsHover.AsWrittenAcceptsPastEnd | LsDefinition.DefinitionOutcomes |
| langserver/handle_workspace_did_change_workspace_folders.go:25-31 | the removal loop nests the folders inside the removed entries: with nothing removed every folder is dropped, and a survivor is appended once per removed entry | folders ["/a"], no removal, one addition of another folder | keep each folder once, unless some removed entry names it | not executed | LsWorkspace.AsWrittenRemoval | LsWorkspace.SurvivorsSpec |
