/**
 * langserver/handle_text_document_completion.go: completion through a command. The first
 * config with a completion command runs, with ${POSITION} filled with "line:character" and
 * the file name templated in; each line of its output becomes one completion item.
 */
module LsCompletion {
  import opened Wrappers
  import opened Text
  import opened Types
  import opened CoreHandler
  import opened LsServer
  import CoreLinting

  /** The world a completion request sees: the directory tree and each command's output or failure. */
  datatype CompletionEnv = CompletionEnv(fs: Paths.FileSystem, run: CoreLinting.Invocation -> FormatRun)

  datatype CompletionError =
    | DocumentNotFound(uri: DocumentURI)
    | InvalidURI(uri: DocumentURI)
    | CommandFailed(message: string)

  /** The error a failing completion command answers: the exec error, then what the command printed. */
  function FailureMessage(error: string, output: string): (m: string)
    ensures |m| == |"completion command failed: "| + |error| + 2 + |output|
    ensures m[..|"completion command failed: "|] == "completion command failed: "
    ensures m[|m| - |output|..] == output
  {
    var m := "completion command failed: " + error + ": " + output;
    assert m[|m| - |output|..] == output;
    m
  }

  /** The configs with a completion command, in order. */
  function WithCompletionCommand(cfgs: seq<LsLanguage>): seq<LsLanguage>
    decreases |cfgs|
  {
    if |cfgs| == 0 then []
    else WithCompletionCommand(cfgs[..|cfgs| - 1])
         + (if cfgs[|cfgs| - 1].completionCommand != "" then [cfgs[|cfgs| - 1]] else [])
  }

  /** The language's configs with a completion command, then the wildcard ones. */
  function CompletionConfigs(configs: map<string, seq<LsLanguage>>, langID: string): seq<LsLanguage> {
    (if langID in configs then WithCompletionCommand(configs[langID]) else [])
    + (if Wildcard in configs then WithCompletionCommand(configs[Wildcard]) else [])
  }

  /** The selection keeps exactly the configs that have a completion command, language ones first. */
  lemma {:induction false} WithCompletionCommandMembers(cfgs: seq<LsLanguage>, c: LsLanguage)
    ensures c in WithCompletionCommand(cfgs) <==> c in cfgs && c.completionCommand != ""
    decreases |cfgs|
  {
    if |cfgs| > 0 {
      WithCompletionCommandMembers(cfgs[..|cfgs| - 1], c);
      assert cfgs == cfgs[..|cfgs| - 1] + [cfgs[|cfgs| - 1]];
    }
  }

  lemma CompletionConfigsFirst(configs: map<string, seq<LsLanguage>>, langID: string)
    ensures |CompletionConfigs(configs, langID)| > 0 ==> CompletionConfigs(configs, langID)[0].completionCommand != ""
    ensures langID in configs && |WithCompletionCommand(configs[langID])| > 0 ==>
      CompletionConfigs(configs, langID)[0] in configs[langID]
  {
    var cfgs := CompletionConfigs(configs, langID);
    if |cfgs| > 0 {
      var c := cfgs[0];
      if langID in configs {
        WithCompletionCommandMembers(configs[langID], c);
      }
      if Wildcard in configs {
        WithCompletionCommandMembers(configs[Wildcard], c);
      }
    }
  }

  /** "line:character", as the command's ${POSITION} reads it. */
  function PositionText(pos: Position): string {
    Itoa(pos.line) + ":" + Itoa(pos.character)
  }

  /**
   * The completion command: every ${POSITION} filled, " ${INPUT}" appended unless the text
   * is piped or the placeholder is present, then the file name templated in.
   */
  function CompletionCommandFor(config: LsLanguage, pos: Position, fname: string, rootPath: string): string {
    var command := config.completionCommand;
    var positioned := if Contains(command, "${POSITION}") then ReplaceAll(command, "${POSITION}", PositionText(pos)) else command;
    var withInput := if !config.completionStdin && !Contains(positioned, "${INPUT}") then positioned + " ${INPUT}" else positioned;
    ReplaceCommandInputFilename(withInput, fname, rootPath)
  }

  /** A command without any '$' is run on the file given as its last argument, or on stdin as it is. */
  lemma CompletionCommandPlain(config: LsLanguage, pos: Position, fname: string, rootPath: string)
    requires '$' !in config.completionCommand && '$' !in fname
    ensures !config.completionStdin ==>
      CompletionCommandFor(config, pos, fname, rootPath) == config.completionCommand + " " + EscapeBrackets(fname)
    ensures config.completionStdin ==>
      CompletionCommandFor(config, pos, fname, rootPath) == config.completionCommand
  {
    var command := config.completionCommand;
    NotContainsWithoutFirst(command, "${POSITION}");
    NotContainsWithoutFirst(command, "${INPUT}");
    if config.completionStdin {
      NotContainsWithoutFirst(command, "${FILEEXT}");
      NotContainsWithoutFirst(command, "${FILENAME}");
      NotContainsWithoutFirst(command, "${ROOT}");
      TemplateWithoutPlaceholders(command, fname, rootPath);
    } else {
      TemplateAppendedInput(command, fname, rootPath);
    }
  }

  lemma ItoaFree(n: int)
    ensures '$' !in Itoa(n)
  {
    var digits := NatToString(if n < 0 then -n else n);
    assert Itoa(n) == (if n < 0 then "-" else "") + digits;
    forall i | 0 <= i < |Itoa(n)|
      ensures Itoa(n)[i] != '$'
    {
      if n < 0 && i > 0 {
        assert Itoa(n)[i] == digits[i - 1];
      }
    }
  }

  /** A piped command that is just ${POSITION} runs as "line:character". */
  lemma CompletionPositionFilled(config: LsLanguage, pos: Position, fname: string, rootPath: string)
    requires config.completionCommand == "${POSITION}" && config.completionStdin
    ensures CompletionCommandFor(config, pos, fname, rootPath) == PositionText(pos)
  {
    var command := config.completionCommand;
    assert HasPrefix(command, "${POSITION}");
    assert Contains(command, "${POSITION}");
    assert command[|"${POSITION}"|..] == "";
    assert ReplaceAll(command, "${POSITION}", PositionText(pos)) == PositionText(pos);
    ItoaFree(pos.line);
    ItoaFree(pos.character);
    var text := PositionText(pos);
    assert '$' !in text;
    NotContainsWithoutFirst(text, "${INPUT}");
    NotContainsWithoutFirst(text, "${FILEEXT}");
    NotContainsWithoutFirst(text, "${FILENAME}");
    NotContainsWithoutFirst(text, "${ROOT}");
    TemplateWithoutPlaceholders(text, fname, rootPath);
  }

  /** One completion item per line, the line as both its label and its insert text. */
  function ItemsOf(lines: seq<string>): seq<CompletionItem>
    decreases |lines|
  {
    if |lines| == 0 then []
    else ItemsOf(lines[..|lines| - 1]) + [CompletionItem(lines[|lines| - 1], lines[|lines| - 1])]
  }

  /**
   * The items of a command's output: as many as the scanner's lines, each inserting its own
   * label, which is that line without its line break.
   */
  lemma {:induction false} ItemsOfLines(lines: seq<string>)
    ensures |ItemsOf(lines)| == |lines|
    ensures forall i :: 0 <= i < |lines| ==>
      ItemsOf(lines)[i].labelText == lines[i] && ItemsOf(lines)[i].insertText == lines[i]
    decreases |lines|
  {
    if |lines| > 0 {
      ItemsOfLines(lines[..|lines| - 1]);
    }
  }

  lemma ItemsOfOutput(output: string)
    ensures |ItemsOf(ScanLines(output))| == |ScanLines(output)|
    ensures forall item :: item in ItemsOf(ScanLines(output)) ==> item.labelText == item.insertText && '\n' !in item.labelText
  {
    var lines := ScanLines(output);
    ItemsOfLines(lines);
    SplitPartsFree(output, '\n');
    forall item | item in ItemsOf(lines)
      ensures item.labelText == item.insertText && '\n' !in item.labelText
    {
      var i :| 0 <= i < |ItemsOf(lines)| && ItemsOf(lines)[i] == item;
      assert lines[i] == DropCR(Split(output, '\n')[i]);
    }
  }

  /** The command the first completion config runs, in the file's root, fed the text when piped. */
  function CompletionInvocation(config: LsLanguage, text: string, rootMarkers: seq<string>, rootPath: string,
                                fname: string, pos: Position, env: CompletionEnv): CoreLinting.Invocation
  {
    CoreLinting.Invocation(
      CompletionCommandFor(config, pos, fname, rootPath),
      FindRootPath(env.fs, fname, config.base, rootMarkers, rootPath),
      config.base.env, if config.completionStdin then Some(text) else None)
  }

  /** completion; None stands for the source's nil list. */
  function CompletionOf(files: map<DocumentURI, FileRef>, configs: map<string, seq<LsLanguage>>, rootMarkers: seq<string>,
                        rootPath: string, uri: DocumentURI, pos: Position, env: CompletionEnv)
    : Result<Option<seq<CompletionItem>>, CompletionError>
  {
    if uri !in files then Failure(DocumentNotFound(uri))
    else match Paths.FromURI(uri)
      case Failure(_) => Failure(InvalidURI(uri))
      case Success(fname) =>
        var cfgs := CompletionConfigs(configs, files[uri].languageID);
        if |cfgs| == 0 then Success(None)
        else
          match env.run(CompletionInvocation(cfgs[0], files[uri].text, rootMarkers, rootPath, fname, pos, env))
          case FormatFailed(error, output) => Failure(CommandFailed(FailureMessage(error, output)))
          case FormatSucceeded(output) => Success(Some(ItemsOf(ScanLines(output))))
  }

  /**
   * What completion answers: an unknown document or a non-file URI fails, no completion
   * command gives nil, a failing command fails with the exec error followed by its output, and otherwise the items are
   * the lines of the first config's output.
   */
  lemma CompletionOutcomes(files: map<DocumentURI, FileRef>, configs: map<string, seq<LsLanguage>>, rootMarkers: seq<string>,
                           rootPath: string, uri: DocumentURI, pos: Position, env: CompletionEnv)
    ensures uri !in files ==> CompletionOf(files, configs, rootMarkers, rootPath, uri, pos, env) == Failure(DocumentNotFound(uri))
    ensures uri in files && Paths.FromURI(uri).Failure? ==>
      CompletionOf(files, configs, rootMarkers, rootPath, uri, pos, env) == Failure(InvalidURI(uri))
    ensures uri in files && Paths.FromURI(uri).Success? && CompletionConfigs(configs, files[uri].languageID) == [] ==>
      CompletionOf(files, configs, rootMarkers, rootPath, uri, pos, env) == Success(None)
    ensures CompletionOf(files, configs, rootMarkers, rootPath, uri, pos, env).Success?
            && CompletionOf(files, configs, rootMarkers, rootPath, uri, pos, env).value.Some? ==>
      && uri in files
      && CompletionConfigs(configs, files[uri].languageID)[0].completionCommand != ""
      && forall item :: item in CompletionOf(files, configs, rootMarkers, rootPath, uri, pos, env).value.value ==>
           item.labelText == item.insertText && '\n' !in item.labelText
    ensures uri in files && Paths.FromURI(uri).Success? && CompletionConfigs(configs, files[uri].languageID) != [] ==>
      var run := env.run(CompletionInvocation(CompletionConfigs(configs, files[uri].languageID)[0], files[uri].text,
                                              rootMarkers, rootPath, Paths.FromURI(uri).value, pos, env));
      var r := CompletionOf(files, configs, rootMarkers, rootPath, uri, pos, env);
      && (run.FormatFailed? ==> r == Failure(CommandFailed(FailureMessage(run.error, run.output))))
      && (run.FormatSucceeded? ==>
            && r.Success? && r.value.Some?
            && |r.value.value| == |ScanLines(run.stdout)|
            && forall i :: 0 <= i < |r.value.value| ==>
                 r.value.value[i] == CompletionItem(ScanLines(run.stdout)[i], ScanLines(run.stdout)[i]))
  {
    if uri in files {
      CompletionConfigsFirst(configs, files[uri].languageID);
      var r := CompletionOf(files, configs, rootMarkers, rootPath, uri, pos, env);
      if Paths.FromURI(uri).Success? && CompletionConfigs(configs, files[uri].languageID) != [] {
        var run := env.run(CompletionInvocation(CompletionConfigs(configs, files[uri].languageID)[0], files[uri].text,
                                                rootMarkers, rootPath, Paths.FromURI(uri).value, pos, env));
        if run.FormatSucceeded? {
          ItemsOfOutput(run.stdout);
          ItemsOfLines(ScanLines(run.stdout));
        }
      }
    }
  }

  // ------------------------------------------------------------------ the handler

  /** One selection loop: the configs with a completion command. */
  method CollectCompletionConfigs(cfgs: seq<LsLanguage>) returns (selected: seq<LsLanguage>)
    ensures selected == WithCompletionCommand(cfgs)
  {
    selected := [];
    for i := 0 to |cfgs|
      invariant selected == WithCompletionCommand(cfgs[..i])
    {
      assert cfgs[..i + 1][..i] == cfgs[..i];
      if cfgs[i].completionCommand != "" {
        selected := selected + [cfgs[i]];
      }
    }
    assert cfgs[..|cfgs|] == cfgs;
  }

  /** The scanner loop: one item per line of the output. */
  method CollectItems(lines: seq<string>) returns (result: seq<CompletionItem>)
    ensures result == ItemsOf(lines)
  {
    result := [];
    for i := 0 to |lines|
      invariant result == ItemsOf(lines[..i])
    {
      assert lines[..i + 1][..i] == lines[..i];
      result := result + [CompletionItem(lines[i], lines[i])];
    }
    assert lines[..|lines|] == lines;
  }

  /**
   * completion. Every selected config has a completion command, so the config loop
   * returns in its first iteration and the final "not supported" error is never reached.
   */
  method Completion(h: LsHandler, uri: DocumentURI, pos: Position, env: CompletionEnv)
    returns (r: Result<Option<seq<CompletionItem>>, CompletionError>)
    ensures r == CompletionOf(h.files, h.configs, h.rootMarkers, h.rootPath, uri, pos, env)
  {
    if uri !in h.files {
      return Failure(DocumentNotFound(uri));
    }
    var f := h.files[uri];
    var path := Paths.FromURI(uri);
    if path.Failure? {
      return Failure(InvalidURI(uri));
    }
    var fname := path.value;
    var configs: seq<LsLanguage> := [];
    if f.languageID in h.configs {
      configs := CollectCompletionConfigs(h.configs[f.languageID]);
    }
    if Wildcard in h.configs {
      var wild := CollectCompletionConfigs(h.configs[Wildcard]);
      configs := configs + wild;
    }
    if |configs| == 0 {
      return Success(None);
    }
    var config := configs[0];
    var command := config.completionCommand;
    if Contains(command, "${POSITION}") {
      command := ReplaceAll(command, "${POSITION}", Itoa(pos.line) + ":" + Itoa(pos.character));
    }
    if !config.completionStdin && !Contains(command, "${INPUT}") {
      command := command + " ${INPUT}";
    }
    command := ReplaceCommandInputFilename(command, fname, h.rootPath);
    var stdin := if config.completionStdin then Some(f.text) else None;
    var run := env.run(CoreLinting.Invocation(command, FindRootPath(env.fs, fname, config.base, h.rootMarkers, h.rootPath), config.base.env, stdin));
    if run.FormatFailed? {
      return Failure(CommandFailed(FailureMessage(run.error, run.output)));
    }
    var items := CollectItems(ScanLines(run.stdout));
    return Success(Some(items));
  }
}
