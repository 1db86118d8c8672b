/**
 * core/formatting.go: the debounce gate, the choice of formatter configs, the command
 * templating, the fold of the document text over the formatters' outputs, and the final
 * line diff between the stored text and the formatted one.
 */
module CoreFormatting {
  import opened Wrappers
  import opened Text
  import opened Paths
  import opened Types
  import opened CoreHandler
  import CoreLinting
  import opened Placeholders
  import opened RowCol
  import opened DiffText

  /** The request's formatting options, in the order the map is walked. */
  type Options = seq<(string, OptionValue)>

  /**
   * The world a format request sees: the directory tree, whether the placeholder
   * patterns built from an option key compile, and each formatter run's result.
   */
  datatype FormatEnv = FormatEnv(fs: FileSystem, keyOk: string -> bool, run: CoreLinting.Invocation -> FormatRun)

  datatype FormatError = DocumentNotFound(uri: DocumentURI) | InvalidURI(uri: DocumentURI) | NotSupported(languageID: string)

  /** Formatting's result: a list of edits (possibly empty), nil edits with nil error, or an error. */
  datatype FormatReply = Edits(edits: seq<TextEdit>) | NoEdits | Failed(error: FormatError)

  // ------------------------------------------------------------------ config selection

  /** A language config formats when it has a command and, if it requires a marker, one is found. */
  predicate FormatGate(fs: FileSystem, fname: string, cfg: Language) {
    cfg.formatCommand != "" && !(MatchRoot(fs, fname, cfg.rootMarkers) == "" && cfg.requireMarker)
  }

  function FilterFormat(fs: FileSystem, fname: string, cfgs: seq<Language>): seq<Language>
    decreases |cfgs|
  {
    if |cfgs| == 0 then []
    else (if FormatGate(fs, fname, cfgs[0]) then [cfgs[0]] else []) + FilterFormat(fs, fname, cfgs[1..])
  }

  function FilterFormatCommand(cfgs: seq<Language>): seq<Language>
    decreases |cfgs|
  {
    if |cfgs| == 0 then []
    else (if cfgs[0].formatCommand != "" then [cfgs[0]] else []) + FilterFormatCommand(cfgs[1..])
  }

  /** formatConfigsForDocument: the language's configs that pass the gate, then the wildcard configs with a command. */
  function FormatConfigsForDocument(fs: FileSystem, fname: string, langID: string, allConfigs: map<string, seq<Language>>): seq<Language> {
    (if langID in allConfigs then FilterFormat(fs, fname, allConfigs[langID]) else [])
    + (if Wildcard in allConfigs then FilterFormatCommand(allConfigs[Wildcard]) else [])
  }

  lemma {:induction false} FilterFormatMembers(fs: FileSystem, fname: string, cfgs: seq<Language>, c: Language)
    ensures c in FilterFormat(fs, fname, cfgs) <==> c in cfgs && FormatGate(fs, fname, c)
    decreases |cfgs|
  {
    if |cfgs| > 0 {
      FilterFormatMembers(fs, fname, cfgs[1..], c);
      assert cfgs == [cfgs[0]] + cfgs[1..];
    }
  }

  lemma {:induction false} FilterFormatCommandMembers(cfgs: seq<Language>, c: Language)
    ensures c in FilterFormatCommand(cfgs) <==> c in cfgs && c.formatCommand != ""
    decreases |cfgs|
  {
    if |cfgs| > 0 {
      FilterFormatCommandMembers(cfgs[1..], c);
      assert cfgs == [cfgs[0]] + cfgs[1..];
    }
  }

  /**
   * A config is chosen exactly when it is a language config with a command whose marker
   * requirement is met, or a wildcard config with a command.
   */
  lemma FormatConfigsMembers(fs: FileSystem, fname: string, langID: string, allConfigs: map<string, seq<Language>>, c: Language)
    ensures c in FormatConfigsForDocument(fs, fname, langID, allConfigs) <==>
      (langID in allConfigs && c in allConfigs[langID] && FormatGate(fs, fname, c))
      || (Wildcard in allConfigs && c in allConfigs[Wildcard] && c.formatCommand != "")
    ensures c in FormatConfigsForDocument(fs, fname, langID, allConfigs) ==> c.formatCommand != ""
  {
    if langID in allConfigs {
      FilterFormatMembers(fs, fname, allConfigs[langID], c);
    }
    if Wildcard in allConfigs {
      FilterFormatCommandMembers(allConfigs[Wildcard], c);
    }
  }

  // ------------------------------------------------------------------ the command

  /** What stays fixed while the configs of one request are processed. */
  datatype FormatContext = FormatContext(
    fname: string,
    rootPath: string,
    rootMarkers: seq<string>,
    options: Options,
    rng: Option<Range>,
    env: FormatEnv)

  /** The command with " ${INPUT}" appended unless the text is piped or the command has the placeholder. */
  function BaseCommand(config: Language): string {
    if !config.formatStdin && !Contains(config.formatCommand, "${INPUT}") then config.formatCommand + " ${INPUT}"
    else config.formatCommand
  }

  /** The formatting options applied in turn; an option whose patterns do not compile skips the config. */
  function ApplyOptions(command: string, options: Options, keyOk: string -> bool): Option<string>
    decreases |options|
  {
    if |options| == 0 then Some(command)
    else if !keyOk(options[0].0) then None
    else ApplyOptions(ApplyOption(command, options[0].0, options[0].1), options[1..], keyOk)
  }

  /** The six range placeholders, the character offsets taken in the current working text. */
  function RangeOptions(text: string, rng: Range): seq<(string, int)> {
    [("charStart", RowColIndex(text, rng.start.line, rng.start.character)),
     ("charEnd", RowColIndex(text, rng.end.line, rng.end.character)),
     ("rowStart", rng.start.line),
     ("colStart", rng.start.character),
     ("rowEnd", rng.end.line),
     ("colEnd", rng.end.character)]
  }

  /** The range options applied in turn, each value printed in decimal. */
  function ApplyRange(command: string, opts: seq<(string, int)>): string
    decreases |opts|
  {
    if |opts| == 0 then command
    else ApplyRange(ApplyOption(command, opts[0].0, Value(Itoa(opts[0].1))), opts[1..])
  }

  /** The command for a config on the current text, or None when an option's patterns do not compile. */
  function ConfigCommand(ctx: FormatContext, config: Language, text: string): Option<string> {
    var templated := ReplaceCommandInputFilename(BaseCommand(config), ctx.fname, ctx.rootPath);
    match ApplyOptions(templated, ctx.options, ctx.env.keyOk)
    case None => None
    case Some(c) => Some(Strip(if ctx.rng.Some? then ApplyRange(c, RangeOptions(text, ctx.rng.value)) else c))
  }

  /** Without a range the command does not depend on the working text. */
  lemma WholeDocumentCommand(ctx: FormatContext, config: Language, text1: string, text2: string)
    requires ctx.rng.None?
    ensures ConfigCommand(ctx, config, text1) == ConfigCommand(ctx, config, text2)
  {
  }

  // ------------------------------------------------------------------ the fold over formatters

  /** The working text and whether some formatter has succeeded. */
  datatype Working = Working(text: string, formatted: bool)

  function InvocationFor(ctx: FormatContext, config: Language, command: string, text: string): CoreLinting.Invocation {
    CoreLinting.Invocation(command, FindRootPath(ctx.env.fs, ctx.fname, config, ctx.rootMarkers, ctx.rootPath),
                           config.env, if config.formatStdin then Some(text) else None)
  }

  /**
   * What a config's formatter prints when it is fed the working text and succeeds: None
   * when the config has no command, an option's patterns do not compile, or the run fails.
   */
  function RunOutput(ctx: FormatContext, config: Language, text: string): Option<string> {
    if config.formatCommand == "" then None
    else match ConfigCommand(ctx, config, text)
      case None => None
      case Some(command) =>
        match ctx.env.run(InvocationFor(ctx, config, command, text))
        case FormatFailed(_, _) => None
        case FormatSucceeded(out) => Some(out)
  }

  /** One iteration of the config loop: a failure keeps the text, a success replaces it by the output without "\r". */
  function FormatStep(ctx: FormatContext, config: Language, w: Working): Working {
    match RunOutput(ctx, config, w.text)
    case None => w
    case Some(out) => Working(ReplaceAll(out, "\r", ""), true)
  }

  function FormatFrom(ctx: FormatContext, configs: seq<Language>, i: nat, w: Working): Working
    requires i <= |configs|
    decreases |configs| - i
  {
    if i == |configs| then w else FormatFrom(ctx, configs, i + 1, FormatStep(ctx, configs[i], w))
  }

  /** What rangeFormatting answers without diffing, or the two texts it diffs. */
  datatype Plan = Done(reply: FormatReply) | Diff(original: string, final: string)

  /** rangeFormatting on the handler's state. */
  function FormatPlan(files: map<DocumentURI, FileRef>, configs: map<string, seq<Language>>, rootMarkers: seq<string>,
                      rootPath: string, uri: DocumentURI, options: Options, rng: Option<Range>, env: FormatEnv): Plan
  {
    if uri !in files then Done(Failed(DocumentNotFound(uri)))
    else
      var f := files[uri];
      match FromURI(uri)
      case Failure(_) => Done(Failed(InvalidURI(uri)))
      case Success(fname) =>
        var selected := FormatConfigsForDocument(env.fs, fname, f.languageID, configs);
        if |selected| == 0 then Done(NoEdits)
        else
          var ctx := FormatContext(fname, rootPath, rootMarkers, options, rng, env);
          var w := FormatFrom(ctx, selected, 0, Working(f.text, false));
          if !w.formatted then Done(Failed(NotSupported(f.languageID))) else Diff(f.text, w.text)
  }

  /** The reply for a plan: the plan's answer, or ComputeEdits' edits from the original to the final text. */
  predicate Answers(plan: Plan, reply: FormatReply) {
    match plan
    case Done(r) => reply == r
    case Diff(original, final) =>
      && reply.Edits?
      && LinesOrdered(reply.edits) && EditCursor(reply.edits) <= |SplitLines(original)|
      && (forall i :: 0 <= i < |reply.edits| ==> EditShaped(reply.edits[i]))
      && ApplyLineEdits(SplitLines(original), reply.edits) == final
      && (original == final ==> reply.edits == [])
  }

  // ------------------------------------------------------------------ properties of the fold

  /**
   * One step: a formatter that fails, or cannot be run, keeps the working state; one that
   * succeeds on the working text replaces it by its output with every "\r" removed.
   */
  lemma FormatStepShape(ctx: FormatContext, config: Language, w: Working)
    ensures RunOutput(ctx, config, w.text).None? ==> FormatStep(ctx, config, w) == w
    ensures RunOutput(ctx, config, w.text).Some? ==>
      FormatStep(ctx, config, w) == Working(ReplaceAll(RunOutput(ctx, config, w.text).value, "\r", ""), true)
    ensures FormatStep(ctx, config, w).formatted <==> w.formatted || RunOutput(ctx, config, w.text).Some?
    ensures FormatStep(ctx, config, w) == w || '\r' !in FormatStep(ctx, config, w).text
  {
    match RunOutput(ctx, config, w.text) {
      case None =>
      case Some(out) => ReplaceCharGone(out, '\r', "");
    }
  }

  /** The state after the configs i..j-1, each fed the text the one before it left. */
  function FormatBetween(ctx: FormatContext, configs: seq<Language>, i: nat, j: nat, w: Working): Working
    requires i <= j <= |configs|
  {
    FormatFrom(ctx, configs[..j], i, w)
  }

  /** No formatter from i on succeeds when fed the text t. */
  predicate NoneSucceed(ctx: FormatContext, configs: seq<Language>, i: nat, t: string) {
    forall k :: i <= k < |configs| ==> RunOutput(ctx, configs[k], t).None?
  }

  /**
   * r is the output, without "\r", of a formatter j >= i that succeeded when fed the text
   * the formatters i..j-1 left, and every later formatter failed on r's text.
   */
  predicate LastSuccess(ctx: FormatContext, configs: seq<Language>, i: nat, w: Working, r: Working)
    requires i <= |configs|
  {
    exists j :: i <= j < |configs|
      && RunOutput(ctx, configs[j], FormatBetween(ctx, configs, i, j, w).text).Some?
      && r == Working(ReplaceAll(RunOutput(ctx, configs[j], FormatBetween(ctx, configs, i, j, w).text).value, "\r", ""), true)
      && NoneSucceed(ctx, configs, j + 1, r.text)
  }

  /**
   * The chain of formatters: either no formatter succeeds on the text it is fed, and the
   * state is the one the fold started from; or the final text is the output, without
   * "\r", of the last formatter that succeeded, fed the text left by those before it.
   */
  lemma {:induction false} FormatFromShape(ctx: FormatContext, configs: seq<Language>, i: nat, w: Working)
    requires i <= |configs|
    ensures (FormatFrom(ctx, configs, i, w) == w && NoneSucceed(ctx, configs, i, w.text))
      || LastSuccess(ctx, configs, i, w, FormatFrom(ctx, configs, i, w))
    ensures w.formatted ==> FormatFrom(ctx, configs, i, w).formatted
    decreases |configs| - i
  {
    if i < |configs| {
      var step := FormatStep(ctx, configs[i], w);
      var r := FormatFrom(ctx, configs, i, w);
      assert r == FormatFrom(ctx, configs, i + 1, step);
      FormatStepShape(ctx, configs[i], w);
      FormatFromShape(ctx, configs, i + 1, step);
      assert FormatBetween(ctx, configs, i, i, w) == w;
      if r == step && NoneSucceed(ctx, configs, i + 1, step.text) {
        if RunOutput(ctx, configs[i], w.text).Some? {
          assert RunOutput(ctx, configs[i], FormatBetween(ctx, configs, i, i, w).text).Some?;
        }
      } else {
        var j :| i + 1 <= j < |configs|
          && RunOutput(ctx, configs[j], FormatBetween(ctx, configs, i + 1, j, step).text).Some?
          && r == Working(ReplaceAll(RunOutput(ctx, configs[j], FormatBetween(ctx, configs, i + 1, j, step).text).value, "\r", ""), true)
          && NoneSucceed(ctx, configs, j + 1, r.text);
        BetweenStep(ctx, configs, i, j, w);
      }
    }
  }

  /** From an unformatted state, the fold ends formatted exactly when some formatter succeeds on the text. */
  lemma FoldOutcome(ctx: FormatContext, configs: seq<Language>, text: string)
    ensures !FormatFrom(ctx, configs, 0, Working(text, false)).formatted <==> NoneSucceed(ctx, configs, 0, text)
    ensures !FormatFrom(ctx, configs, 0, Working(text, false)).formatted ==> FormatFrom(ctx, configs, 0, Working(text, false)).text == text
    ensures FormatFrom(ctx, configs, 0, Working(text, false)).formatted ==>
      LastSuccess(ctx, configs, 0, Working(text, false), FormatFrom(ctx, configs, 0, Working(text, false)))
  {
    FormatFromShape(ctx, configs, 0, Working(text, false));
  }

  /** Running config i first and then i+1..j-1 is running i..j-1. */
  lemma BetweenStep(ctx: FormatContext, configs: seq<Language>, i: nat, j: nat, w: Working)
    requires i < j <= |configs|
    ensures FormatBetween(ctx, configs, i + 1, j, FormatStep(ctx, configs[i], w)) == FormatBetween(ctx, configs, i, j, w)
  {
    assert configs[..j][i] == configs[i];
  }

  /** When every formatter run fails the text is never touched and the request fails. */
  lemma {:induction false} AllFailing(ctx: FormatContext, configs: seq<Language>, i: nat, w: Working)
    requires i <= |configs|
    requires forall inv :: ctx.env.run(inv).FormatFailed?
    ensures FormatFrom(ctx, configs, i, w) == w
    decreases |configs| - i
  {
    if i < |configs| {
      AllFailing(ctx, configs, i + 1, w);
    }
  }

  /**
   * The request's outcomes: an unknown document or a bad URI fails; no applicable config
   * gives nil edits; when no selected formatter succeeds on the stored text the request
   * fails with "not supported"; otherwise the stored text is diffed against the output,
   * without "\r", of the last formatter that succeeded on the text the ones before it left.
   */
  lemma FormatPlanOutcomes(files: map<DocumentURI, FileRef>, configs: map<string, seq<Language>>, rootMarkers: seq<string>,
                           rootPath: string, uri: DocumentURI, options: Options, rng: Option<Range>, env: FormatEnv,
                           plan: Plan)
    requires plan == FormatPlan(files, configs, rootMarkers, rootPath, uri, options, rng, env)
    ensures uri !in files ==> plan == Done(Failed(DocumentNotFound(uri)))
    ensures uri in files && FromURI(uri).Failure? ==> plan == Done(Failed(InvalidURI(uri)))
    ensures uri in files && FromURI(uri).Success? ==>
      var selected := FormatConfigsForDocument(env.fs, FromURI(uri).value, files[uri].languageID, configs);
      var ctx := FormatContext(FromURI(uri).value, rootPath, rootMarkers, options, rng, env);
      && (|selected| == 0 ==> plan == Done(NoEdits))
      && (|selected| > 0 && NoneSucceed(ctx, selected, 0, files[uri].text) ==>
            plan == Done(Failed(NotSupported(files[uri].languageID))))
      && (|selected| > 0 && !NoneSucceed(ctx, selected, 0, files[uri].text) ==>
            plan.Diff? && plan.original == files[uri].text
            && LastSuccess(ctx, selected, 0, Working(files[uri].text, false), Working(plan.final, true)))
  {
    if uri in files && FromURI(uri).Success? {
      var f := files[uri];
      var fname := FromURI(uri).value;
      var selected := FormatConfigsForDocument(env.fs, fname, f.languageID, configs);
      if |selected| > 0 {
        var ctx := FormatContext(fname, rootPath, rootMarkers, options, rng, env);
        FoldOutcome(ctx, selected, f.text);
      }
    }
  }

  /** A plan's final text, when it diffs, holds no "\r". */
  lemma PlanFinalClean(files: map<DocumentURI, FileRef>, configs: map<string, seq<Language>>, rootMarkers: seq<string>,
                       rootPath: string, uri: DocumentURI, options: Options, rng: Option<Range>, env: FormatEnv)
    ensures FormatPlan(files, configs, rootMarkers, rootPath, uri, options, rng, env).Diff? ==>
      '\r' !in FormatPlan(files, configs, rootMarkers, rootPath, uri, options, rng, env).final
  {
    if uri in files && FromURI(uri).Success? {
      var fname := FromURI(uri).value;
      var selected := FormatConfigsForDocument(env.fs, fname, files[uri].languageID, configs);
      if |selected| > 0 {
        var ctx := FormatContext(fname, rootPath, rootMarkers, options, rng, env);
        var w := FormatFrom(ctx, selected, 0, Working(files[uri].text, false));
        FoldOutcome(ctx, selected, files[uri].text);
        if w.formatted {
          var j :| 0 <= j < |selected|
            && RunOutput(ctx, selected[j], FormatBetween(ctx, selected, 0, j, Working(files[uri].text, false)).text).Some?
            && w == Working(ReplaceAll(RunOutput(ctx, selected[j], FormatBetween(ctx, selected, 0, j, Working(files[uri].text, false)).text).value, "\r", ""), true)
            && NoneSucceed(ctx, selected, j + 1, w.text);
          ReplaceCharGone(RunOutput(ctx, selected[j], FormatBetween(ctx, selected, 0, j, Working(files[uri].text, false)).text).value, '\r', "");
        }
      }
    }
  }

  // ------------------------------------------------------------------ the Go code, step by step

  /** The option loop: each option rewrites the command; a key whose patterns do not compile skips the config. */
  method FillOptions(command: string, options: Options, keyOk: string -> bool) returns (r: Option<string>)
    ensures r == ApplyOptions(command, options, keyOk)
  {
    var c := command;
    var j := 0;
    while j < |options|
      invariant 0 <= j <= |options|
      invariant ApplyOptions(command, options, keyOk) == ApplyOptions(c, options[j..], keyOk)
    {
      assert options[j..][1..] == options[j + 1..];
      var (placeholder, value) := options[j];
      if !keyOk(placeholder) {
        return None;
      }
      match value {
        case Value(v) =>
          c := Fill(c, ':', placeholder, "$1 " + v);
          c := Fill(c, '=', placeholder, "$1=" + v);
        case Flag(on) =>
          if on {
            c := Fill(c, ':', placeholder, "$1");
            c := Fill(c, '=', placeholder, "$1");
          } else {
            c := Fill(c, ':', "!" + placeholder, "$1");
            c := Fill(c, '=', "!" + placeholder, "$1");
          }
      }
      j := j + 1;
    }
    return Some(c);
  }

  /** The range block: both offsets on the working text, then the six placeholders. */
  method FillRange(command: string, text: string, rng: Range) returns (r: string)
    ensures r == ApplyRange(command, RangeOptions(text, rng))
  {
    var charStart := ConvertRowColToIndex(text, rng.start.line, rng.start.character);
    var charEnd := ConvertRowColToIndex(text, rng.end.line, rng.end.character);
    var rangeOptions := [("charStart", charStart), ("charEnd", charEnd),
                         ("rowStart", rng.start.line), ("colStart", rng.start.character),
                         ("rowEnd", rng.end.line), ("colEnd", rng.end.character)];
    r := command;
    var j := 0;
    while j < |rangeOptions|
      invariant 0 <= j <= |rangeOptions|
      invariant ApplyRange(command, rangeOptions) == ApplyRange(r, rangeOptions[j..])
    {
      assert rangeOptions[j..][1..] == rangeOptions[j + 1..];
      var (placeholder, value) := rangeOptions[j];
      r := Fill(r, ':', placeholder, "$1 " + Itoa(value));
      r := Fill(r, '=', placeholder, "$1=" + Itoa(value));
      j := j + 1;
    }
  }

  /** One iteration of rangeFormatting's config loop. */
  method FormatWithConfig(ctx: FormatContext, config: Language, w: Working) returns (next: Working)
    ensures next == FormatStep(ctx, config, w)
  {
    if config.formatCommand == "" {
      return w;
    }
    var command := BaseCommand(config);
    command := ReplaceCommandInputFilename(command, ctx.fname, ctx.rootPath);
    var filled := FillOptions(command, ctx.options, ctx.env.keyOk);
    if filled.None? {
      return w;
    }
    command := filled.value;
    if ctx.rng.Some? {
      command := FillRange(command, w.text, ctx.rng.value);
    }
    command := Strip(command);
    var run := ctx.env.run(InvocationFor(ctx, config, command, w.text));
    if run.FormatFailed? {
      return w;
    }
    return Working(ReplaceAll(run.stdout, "\r", ""), true);
  }

  /** The config loop of rangeFormatting. */
  method RunFormatters(ctx: FormatContext, configs: seq<Language>, original: string) returns (w: Working)
    ensures w == FormatFrom(ctx, configs, 0, Working(original, false))
  {
    w := Working(original, false);
    for i := 0 to |configs|
      invariant FormatFrom(ctx, configs, 0, Working(original, false)) == FormatFrom(ctx, configs, i, w)
    {
      w := FormatWithConfig(ctx, configs[i], w);
    }
  }

  /** rangeFormatting: choose the configs, fold the text over the formatters, and diff. */
  method RangeFormatting(h: LangHandler, uri: DocumentURI, rng: Option<Range>, options: Options, env: FormatEnv)
    returns (reply: FormatReply)
    ensures Answers(FormatPlan(h.files, h.configs, h.rootMarkers, h.rootPath, uri, options, rng, env), reply)
  {
    if uri !in h.files {
      return Failed(DocumentNotFound(uri));
    }
    var f := h.files[uri];
    var path := FromURI(uri);
    if path.Failure? {
      return Failed(InvalidURI(uri));
    }
    var fname := path.value;
    var configs := FormatConfigsForDocument(env.fs, fname, f.languageID, h.configs);
    if |configs| == 0 {
      return NoEdits;
    }
    var ctx := FormatContext(fname, h.rootPath, h.rootMarkers, options, rng, env);
    var w := RunFormatters(ctx, configs, f.text);
    if !w.formatted {
      return Failed(NotSupported(f.languageID));
    }
    var edits := ComputeEdits(uri, f.text, w.text);
    return Edits(edits);
  }

  /**
   * Formatting: while the format timer is pending, answer an empty list and run
   * nothing; otherwise arm the timer and format.
   */
  method Formatting(h: LangHandler, uri: DocumentURI, rng: Option<Range>, options: Options, env: FormatEnv)
    returns (reply: FormatReply)
    modifies h`formatTimer
    ensures h.formatTimer
    ensures old(h.formatTimer) ==> reply == Edits([])
    ensures !old(h.formatTimer) ==> Answers(FormatPlan(h.files, h.configs, h.rootMarkers, h.rootPath, uri, options, rng, env), reply)
  {
    if h.formatTimer {
      return Edits([]);
    }
    h.formatTimer := true;
    reply := RangeFormatting(h, uri, rng, options, env);
  }

  /** The format timer's callback: the gate opens again. */
  method FireFormatTimer(h: LangHandler)
    modifies h`formatTimer
    ensures !h.formatTimer
  {
    h.formatTimer := false;
  }
}
