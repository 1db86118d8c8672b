/**
 * langserver/handle_text_document_formatting.go: the older copy of the format pipeline.
 * A whole-document request carries the range (-1,-1)-(-1,-1) instead of no range, and a
 * config may ask for the working text to be trimmed before its output replaces it. The
 * runs are proved against the core's format specification on the configs' format fields.
 * The reply's edits come from the langserver package's own ComputeEdits
 * (langserver/diff.go), which is not part of this model and is a parameter here.
 */
module LsFormatting {
  import opened Wrappers
  import opened Text
  import opened Types
  import opened CoreHandler
  import opened Placeholders
  import opened CoreFormatting
  import opened LsServer

  /** langserver's ComputeEdits(uri, before, after), taken as given. */
  type LsDiff = (DocumentURI, string, string) -> seq<TextEdit>

  /** The reply for a core plan: the plan's answer, or langserver's edits from the original to the final text. */
  predicate LsAnswers(plan: Plan, uri: DocumentURI, lsDiff: LsDiff, reply: FormatReply) {
    match plan
    case Done(r) => reply == r
    case Diff(original, final) => reply == Edits(lsDiff(uri, original, final))
  }

  /** The range handleTextDocumentFormatting passes for the whole document. */
  const WholeDocument: Range := Range(Position(-1, -1), Position(-1, -1))

  /** The range placeholders are filled only when the start line is not the sentinel -1. */
  function RangeOf(rng: Range): (r: Option<Range>)
    ensures r.None? <==> rng.start.line == -1
    ensures r.Some? ==> r.value == rng
  {
    if rng.start.line != -1 then Some(rng) else None
  }

  // ------------------------------------------------------------------ config selection

  /** The format configs of a language: those with a command whose marker requirement is met. */
  function LsFilterFormat(fs: Paths.FileSystem, fname: string, cfgs: seq<LsLanguage>): seq<LsLanguage>
    decreases |cfgs|
  {
    if |cfgs| == 0 then []
    else (if FormatGate(fs, fname, cfgs[0].base) then [cfgs[0]] else []) + LsFilterFormat(fs, fname, cfgs[1..])
  }

  /** The wildcard configs with a format command. */
  function LsFilterFormatCommand(cfgs: seq<LsLanguage>): seq<LsLanguage>
    decreases |cfgs|
  {
    if |cfgs| == 0 then []
    else (if cfgs[0].base.formatCommand != "" then [cfgs[0]] else []) + LsFilterFormatCommand(cfgs[1..])
  }

  /** The language's format configs, then the wildcard ones. */
  function LsFormatConfigs(fs: Paths.FileSystem, fname: string, langID: string, configs: map<string, seq<LsLanguage>>): seq<LsLanguage> {
    (if langID in configs then LsFilterFormat(fs, fname, configs[langID]) else [])
    + (if Wildcard in configs then LsFilterFormatCommand(configs[Wildcard]) else [])
  }

  lemma BasesAppend(x: seq<LsLanguage>, y: seq<LsLanguage>)
    ensures Bases(x + y) == Bases(x) + Bases(y)
  {
  }

  lemma {:induction false} LsFilterFormatBases(fs: Paths.FileSystem, fname: string, cfgs: seq<LsLanguage>)
    ensures Bases(LsFilterFormat(fs, fname, cfgs)) == FilterFormat(fs, fname, Bases(cfgs))
    decreases |cfgs|
  {
    if |cfgs| > 0 {
      LsFilterFormatBases(fs, fname, cfgs[1..]);
      assert Bases(cfgs)[1..] == Bases(cfgs[1..]);
      BasesAppend(if FormatGate(fs, fname, cfgs[0].base) then [cfgs[0]] else [], LsFilterFormat(fs, fname, cfgs[1..]));
    }
  }

  lemma {:induction false} LsFilterFormatCommandBases(cfgs: seq<LsLanguage>)
    ensures Bases(LsFilterFormatCommand(cfgs)) == FilterFormatCommand(Bases(cfgs))
    decreases |cfgs|
  {
    if |cfgs| > 0 {
      LsFilterFormatCommandBases(cfgs[1..]);
      assert Bases(cfgs)[1..] == Bases(cfgs[1..]);
      BasesAppend(if cfgs[0].base.formatCommand != "" then [cfgs[0]] else [], LsFilterFormatCommand(cfgs[1..]));
    }
  }

  /**
   * The langserver selection keeps the same configs, in the same order, as the core's
   * formatConfigsForDocument.
   */
  lemma LsFormatConfigsBases(fs: Paths.FileSystem, fname: string, langID: string, configs: map<string, seq<LsLanguage>>)
    ensures Bases(LsFormatConfigs(fs, fname, langID, configs)) == FormatConfigsForDocument(fs, fname, langID, BaseConfigs(configs))
  {
    var x := if langID in configs then LsFilterFormat(fs, fname, configs[langID]) else [];
    var y := if Wildcard in configs then LsFilterFormatCommand(configs[Wildcard]) else [];
    BasesAppend(x, y);
    if langID in configs {
      LsFilterFormatBases(fs, fname, configs[langID]);
    }
    if Wildcard in configs {
      LsFilterFormatCommandBases(configs[Wildcard]);
    }
  }

  /** The selection loops of rangeFormatting. */
  method SelectFormatConfigs(fs: Paths.FileSystem, fname: string, langID: string, configs: map<string, seq<LsLanguage>>)
    returns (selected: seq<LsLanguage>)
    ensures selected == LsFormatConfigs(fs, fname, langID, configs)
  {
    selected := [];
    if langID in configs {
      selected := SelectLanguageConfigs(fs, fname, configs[langID]);
    }
    if Wildcard in configs {
      var wild := SelectWildcardConfigs(configs[Wildcard]);
      selected := selected + wild;
    }
  }

  /** The loop over the language's configs: a command, and a marker when one is required. */
  method SelectLanguageConfigs(fs: Paths.FileSystem, fname: string, cfgs: seq<LsLanguage>) returns (selected: seq<LsLanguage>)
    ensures selected == LsFilterFormat(fs, fname, cfgs)
  {
    selected := [];
    for i := 0 to |cfgs|
      invariant selected + LsFilterFormat(fs, fname, cfgs[i..]) == LsFilterFormat(fs, fname, cfgs)
    {
      LsFilterFormatStep(fs, fname, cfgs, i);
      if cfgs[i].base.formatCommand != "" {
        var root := MatchRootPath(fs, fname, cfgs[i].base.rootMarkers);
        FormatGateAt(fs, fname, cfgs[i].base, root);
        if root == "" && cfgs[i].base.requireMarker {
          continue;
        }
        AppendAssoc(selected, [cfgs[i]], LsFilterFormat(fs, fname, cfgs[i + 1..]));
        selected := selected + [cfgs[i]];
      }
    }
    assert cfgs[|cfgs|..] == [];
  }

  /** LsFilterFormat from index i: config i's verdict, then the rest. */
  lemma LsFilterFormatStep(fs: Paths.FileSystem, fname: string, cfgs: seq<LsLanguage>, i: int)
    requires 0 <= i < |cfgs|
    ensures FormatGate(fs, fname, cfgs[i].base) ==>
      LsFilterFormat(fs, fname, cfgs[i..]) == [cfgs[i]] + LsFilterFormat(fs, fname, cfgs[i + 1..])
    ensures !FormatGate(fs, fname, cfgs[i].base) ==>
      LsFilterFormat(fs, fname, cfgs[i..]) == LsFilterFormat(fs, fname, cfgs[i + 1..])
  {
    assert cfgs[i..][1..] == cfgs[i + 1..];
    assert [] + LsFilterFormat(fs, fname, cfgs[i + 1..]) == LsFilterFormat(fs, fname, cfgs[i + 1..]);
  }

  /** The format gate in terms of the root matchRootPath found. */
  lemma FormatGateAt(fs: Paths.FileSystem, fname: string, cfg: Language, root: string)
    requires root == MatchRoot(fs, fname, cfg.rootMarkers)
    ensures FormatGate(fs, fname, cfg) <==> cfg.formatCommand != "" && !(root == "" && cfg.requireMarker)
  {
  }

  /** The loop over the wildcard configs: a command is all they need. */
  method SelectWildcardConfigs(cfgs: seq<LsLanguage>) returns (selected: seq<LsLanguage>)
    ensures selected == LsFilterFormatCommand(cfgs)
  {
    selected := [];
    for i := 0 to |cfgs|
      invariant selected + LsFilterFormatCommand(cfgs[i..]) == LsFilterFormatCommand(cfgs)
    {
      assert cfgs[i..][1..] == cfgs[i + 1..];
      if cfgs[i].base.formatCommand != "" {
        AppendAssoc(selected, [cfgs[i]], LsFilterFormatCommand(cfgs[i + 1..]));
        selected := selected + [cfgs[i]];
      }
    }
    assert cfgs[|cfgs|..] == [];
  }

  // ------------------------------------------------------------------ one config

  /** strings.Trim(s, cutset): drops leading and trailing characters of the cut set. */
  function Trim(s: string, cutset: string): string {
    TrimRight(TrimLeft(s, cutset), cutset)
  }

  function TrimLeft(s: string, cutset: string): string
    decreases |s|
  {
    if |s| > 0 && s[0] in cutset then TrimLeft(s[1..], cutset) else s
  }

  /**
   * One iteration of the config loop. The trim of FormatTrimFile is made on the working
   * text just before the formatter's output replaces it, so it changes nothing: the step
   * is the core's step on the config's format fields.
   */
  method FormatWithConfig(ctx: FormatContext, config: LsLanguage, w: Working) returns (next: Working)
    ensures next == FormatStep(ctx, config.base, w)
  {
    var base := config.base;
    if base.formatCommand == "" {
      return w;
    }
    var command := BaseCommand(base);
    command := ReplaceCommandInputFilename(command, ctx.fname, ctx.rootPath);
    var filled := FillOptions(command, ctx.options, ctx.env.keyOk);
    if filled.None? {
      return w;
    }
    command := filled.value;
    if ctx.rng.Some? {
      command := FillRange(command, w.text, ctx.rng.value);
    }
    command := Strip(command);
    var run := ctx.env.run(InvocationFor(ctx, base, command, w.text));
    if run.FormatFailed? {
      return w;
    }
    var text := w.text;
    if config.formatTrimFile {
      text := Trim(text, "\r\n ");
    }
    text := ReplaceAll(run.stdout, "\r", "");
    return Working(text, true);
  }

  /** The config loop of rangeFormatting. */
  method RunFormatters(ctx: FormatContext, configs: seq<LsLanguage>, original: string) returns (w: Working)
    ensures w == FormatFrom(ctx, Bases(configs), 0, Working(original, false))
  {
    w := Working(original, false);
    for i := 0 to |configs|
      invariant FormatFrom(ctx, Bases(configs), 0, Working(original, false)) == FormatFrom(ctx, Bases(configs), i, w)
    {
      w := FormatWithConfig(ctx, configs[i], w);
    }
  }

  /**
   * rangeFormatting: the core's format plan on the configs' format fields, with the
   * sentinel range standing for no range.
   */
  method RangeFormatting(h: LsHandler, uri: DocumentURI, rng: Range, options: Options, env: FormatEnv, lsDiff: LsDiff)
    returns (reply: FormatReply)
    ensures LsAnswers(FormatPlan(h.files, BaseConfigs(h.configs), h.rootMarkers, h.rootPath, uri, options, RangeOf(rng), env), uri, lsDiff, reply)
  {
    if uri !in h.files {
      return Failed(DocumentNotFound(uri));
    }
    var f := h.files[uri];
    var path := Paths.FromURI(uri);
    if path.Failure? {
      return Failed(InvalidURI(uri));
    }
    var fname := path.value;
    var configs := SelectFormatConfigs(env.fs, fname, f.languageID, h.configs);
    LsFormatConfigsBases(env.fs, fname, f.languageID, h.configs);
    if |configs| == 0 {
      return NoEdits;
    }
    var ctx := FormatContext(fname, h.rootPath, h.rootMarkers, options, RangeOf(rng), env);
    var w := RunFormatters(ctx, configs, f.text);
    if !w.formatted {
      return Failed(NotSupported(f.languageID));
    }
    var edits := lsDiff(uri, f.text, w.text);
    return Edits(edits);
  }

  /**
   * rangeFormatRequest: while the format timer is pending, answer an empty list and run
   * nothing; otherwise arm the timer and format.
   */
  method RangeFormatRequest(h: LsHandler, uri: DocumentURI, rng: Range, options: Options, env: FormatEnv, lsDiff: LsDiff)
    returns (reply: FormatReply)
    modifies h`formatTimer
    ensures h.formatTimer
    ensures old(h.formatTimer) ==> reply == Edits([])
    ensures !old(h.formatTimer) ==>
      LsAnswers(FormatPlan(h.files, BaseConfigs(h.configs), h.rootMarkers, h.rootPath, uri, options, RangeOf(rng), env), uri, lsDiff, reply)
  {
    if h.formatTimer {
      return Edits([]);
    }
    h.formatTimer := true;
    reply := RangeFormatting(h, uri, rng, options, env, lsDiff);
  }

  /** handleTextDocumentFormatting: a request for the whole document, without range placeholders. */
  method DocumentFormatting(h: LsHandler, uri: DocumentURI, options: Options, env: FormatEnv, lsDiff: LsDiff)
    returns (reply: FormatReply)
    modifies h`formatTimer
    ensures h.formatTimer
    ensures old(h.formatTimer) ==> reply == Edits([])
    ensures !old(h.formatTimer) ==>
      LsAnswers(FormatPlan(h.files, BaseConfigs(h.configs), h.rootMarkers, h.rootPath, uri, options, None, env), uri, lsDiff, reply)
  {
    reply := RangeFormatRequest(h, uri, WholeDocument, options, env, lsDiff);
  }
}
