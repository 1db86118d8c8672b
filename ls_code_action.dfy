/**
 * langserver/handle_text_document_code_action.go: configured commands offered as code
 * actions, each encoded as "efm-langserver<TAB>command<TAB>uri" with the URI as its
 * argument, and the execution of such an encoded command.
 */
module LsCodeAction {
  import opened Wrappers
  import opened Text
  import opened Types
  import opened CoreHandler
  import opened LsServer

  // ------------------------------------------------------------------ offering

  /** A command is offered when it names no operating system or one of its comma-separated, trimmed entries is goos. */
  predicate OffersOn(os: string, goos: string) {
    os == "" || NamesOS(Fields(os, ','), goos)
  }

  /** Some entry, trimmed, is goos. */
  predicate NamesOS(entries: seq<string>, goos: string) {
    exists j :: 0 <= j < |entries| && TrimSpace(entries[j]) == goos
  }

  /** The code-action form of a command: its title, the encoded command line and the URI as its only argument. */
  function Encoded(uri: DocumentURI, v: Command): Command {
    Command(v.title, "efm-langserver\t" + v.command + "\t" + uri, [uri], "")
  }

  /** filterCommands: the commands offered on goos, encoded for the document, in order. */
  function Offered(uri: DocumentURI, commands: seq<Command>, goos: string): seq<Command>
    decreases |commands|
  {
    if |commands| == 0 then []
    else
      var v := commands[|commands| - 1];
      Offered(uri, commands[..|commands| - 1], goos) + (if OffersOn(v.os, goos) then [Encoded(uri, v)] else [])
  }

  /** Every offered action encodes an input command available on goos, and every such command is offered. */
  lemma {:induction false} OfferedSpec(uri: DocumentURI, commands: seq<Command>, goos: string)
    ensures |Offered(uri, commands, goos)| <= |commands|
    ensures forall c :: c in Offered(uri, commands, goos) ==> exists v :: v in commands && OffersOn(v.os, goos) && c == Encoded(uri, v)
    ensures forall v :: v in commands && OffersOn(v.os, goos) ==> Encoded(uri, v) in Offered(uri, commands, goos)
    decreases |commands|
  {
    if |commands| > 0 {
      var prefix := commands[..|commands| - 1];
      OfferedSpec(uri, prefix, goos);
      assert commands == prefix + [commands[|commands| - 1]];
    }
  }

  /** The offered commands of each config in turn. */
  function ConfigsOffered(uri: DocumentURI, cfgs: seq<LsLanguage>, goos: string): seq<Command>
    decreases |cfgs|
  {
    if |cfgs| == 0 then []
    else ConfigsOffered(uri, cfgs[..|cfgs| - 1], goos) + Offered(uri, cfgs[|cfgs| - 1].commands, goos)
  }

  datatype ActionError = DocumentNotFound(uri: DocumentURI)

  /** codeAction: the global commands, then the language configs', then the wildcard configs'. */
  function CodeActions(files: map<DocumentURI, FileRef>, configs: map<string, seq<LsLanguage>>, commands: seq<Command>,
                       uri: DocumentURI, goos: string): Result<seq<Command>, ActionError>
  {
    if uri !in files then Failure(DocumentNotFound(uri))
    else
      var langID := files[uri].languageID;
      Success(Offered(uri, commands, goos)
              + (if langID in configs then ConfigsOffered(uri, configs[langID], goos) else [])
              + (if Wildcard in configs then ConfigsOffered(uri, configs[Wildcard], goos) else []))
  }

  // ------------------------------------------------------------------ decoding and lookup

  datatype CommandRef = CommandRef(name: string, uri: DocumentURI)

  /** The tab-separated tokens of an executed command: exactly three, the first "efm-langserver". */
  function Decode(command: string): Option<CommandRef> {
    var tok := Split(command, '\t');
    if |tok| != 3 || tok[0] != "efm-langserver" then None else Some(CommandRef(tok[1], tok[2]))
  }

  /** Decoding an encoded command gives back its name and document when neither holds a tab. */
  lemma DecodeEncoded(uri: DocumentURI, v: Command)
    requires '\t' !in v.command && '\t' !in uri
    ensures Decode(Encoded(uri, v).command) == Some(CommandRef(v.command, uri))
  {
    var rest := v.command + ['\t'] + uri;
    SplitFree(uri, '\t');
    SplitAfterPart(v.command, uri, '\t');
    assert Split(rest, '\t') == [v.command, uri];
    SplitAfterPart("efm-langserver", rest, '\t');
    assert Encoded(uri, v).command == "efm-langserver" + ['\t'] + rest;
  }

  /** The first command with the given name. */
  function FindCommand(cmds: seq<Command>, name: string): Option<Command>
    decreases |cmds|
  {
    if |cmds| == 0 then None
    else if cmds[0].command == name then Some(cmds[0])
    else FindCommand(cmds[1..], name)
  }

  /** The first config with a command of the given name, and its first such command. */
  function FindInConfigs(cfgs: seq<LsLanguage>, name: string): Option<Command>
    decreases |cfgs|
  {
    if |cfgs| == 0 then None
    else match FindCommand(cfgs[0].commands, name)
      case Some(v) => Some(v)
      case None => FindInConfigs(cfgs[1..], name)
  }

  /** The lookup order of executeCommand: language configs, wildcard configs, global commands. */
  function Lookup(configs: map<string, seq<LsLanguage>>, langID: string, commands: seq<Command>, name: string): Option<Command> {
    var inLang := if langID in configs then FindInConfigs(configs[langID], name) else None;
    if inLang.Some? then inLang
    else
      var inWild := if Wildcard in configs then FindInConfigs(configs[Wildcard], name) else None;
      if inWild.Some? then inWild else FindCommand(commands, name)
  }

  /** Some config of the sequence holds the command. */
  predicate HeldBy(cfgs: seq<LsLanguage>, v: Command) {
    exists i :: 0 <= i < |cfgs| && v in cfgs[i].commands
  }

  lemma {:induction false} FindCommandSpec(cmds: seq<Command>, name: string)
    ensures FindCommand(cmds, name).Some? <==> exists v :: v in cmds && v.command == name
    ensures FindCommand(cmds, name).Some? ==> FindCommand(cmds, name).value in cmds && FindCommand(cmds, name).value.command == name
    decreases |cmds|
  {
    if |cmds| > 0 {
      FindCommandSpec(cmds[1..], name);
      assert forall v :: v in cmds <==> v == cmds[0] || v in cmds[1..];
    }
  }

  lemma {:induction false} FindInConfigsSpec(cfgs: seq<LsLanguage>, name: string)
    ensures FindInConfigs(cfgs, name).Some? <==> exists v :: HeldBy(cfgs, v) && v.command == name
    ensures FindInConfigs(cfgs, name).Some? ==> HeldBy(cfgs, FindInConfigs(cfgs, name).value) && FindInConfigs(cfgs, name).value.command == name
    decreases |cfgs|
  {
    if |cfgs| > 0 {
      FindCommandSpec(cfgs[0].commands, name);
      FindInConfigsSpec(cfgs[1..], name);
      forall v | HeldBy(cfgs[1..], v)
        ensures HeldBy(cfgs, v)
      {
        var i :| 0 <= i < |cfgs[1..]| && v in cfgs[1..][i].commands;
        assert v in cfgs[i + 1].commands;
      }
      forall v | HeldBy(cfgs, v) && v !in cfgs[0].commands
        ensures HeldBy(cfgs[1..], v)
      {
        var i :| 0 <= i < |cfgs| && v in cfgs[i].commands;
        assert i > 0 && v in cfgs[1..][i - 1].commands;
      }
      if FindCommand(cfgs[0].commands, name).Some? {
        assert HeldBy(cfgs, FindCommand(cfgs[0].commands, name).value) by {
          assert FindCommand(cfgs[0].commands, name).value in cfgs[0].commands;
        }
      }
    }
  }

  /**
   * Any command held by the language's configs, the wildcard configs or the global list is
   * found under its name, and what is found carries that name and comes from one of them.
   */
  lemma LookupSpec(configs: map<string, seq<LsLanguage>>, langID: string, commands: seq<Command>, name: string)
    ensures Lookup(configs, langID, commands, name).Some? <==>
      exists v: Command :: v.command == name
        && ((langID in configs && HeldBy(configs[langID], v)) || (Wildcard in configs && HeldBy(configs[Wildcard], v)) || v in commands)
    ensures Lookup(configs, langID, commands, name).Some? ==>
      var v := Lookup(configs, langID, commands, name).value;
      v.command == name
      && ((langID in configs && HeldBy(configs[langID], v)) || (Wildcard in configs && HeldBy(configs[Wildcard], v)) || v in commands)
  {
    if langID in configs {
      FindInConfigsSpec(configs[langID], name);
    }
    if Wildcard in configs {
      FindInConfigsSpec(configs[Wildcard], name);
    }
    FindCommandSpec(commands, name);
  }

  // ------------------------------------------------------------------ execution

  /** A command argument: a string, or a value of another JSON type. */
  datatype Argument = StringArgument(s: string) | OtherArgument

  datatype ExecuteError =
    | InvalidCommand
    | InvalidArgument
    | UnknownDocument(uri: DocumentURI)
    | CommandNotFound(name: string)
    | InvalidURI(uri: DocumentURI)
    | CommandFailed(error: string)
    | ConfigUnreadable(message: string)

  /** What an accepted command leads to: a shell run with these arguments, or an internal ":" command. */
  datatype Plan = Shell(args: seq<string>) | Internal(name: string)

  /**
   * The configured arguments, each templated and passed twice; a template that changes an
   * argument while the file name is empty makes the URI invalid.
   */
  function ExpandArguments(args: seq<string>, fname: string, rootPath: string): Option<seq<string>>
    decreases |args|
  {
    if |args| == 0 then Some([])
    else match ExpandArguments(args[..|args| - 1], fname, rootPath)
      case None => None
      case Some(done) =>
        var arg := args[|args| - 1];
        var tmp := ReplaceCommandInputFilename(arg, fname, rootPath);
        if tmp != arg && fname == "" then None else Some(done + [tmp, tmp])
  }

  /** Each argument appears twice, templated, in order; the expansion fails exactly when a templated argument needs the missing file name. */
  lemma {:induction false} ExpandArgumentsSpec(args: seq<string>, fname: string, rootPath: string)
    ensures ExpandArguments(args, fname, rootPath).None? <==>
      fname == "" && exists i :: 0 <= i < |args| && ReplaceCommandInputFilename(args[i], fname, rootPath) != args[i]
    ensures ExpandArguments(args, fname, rootPath).Some? ==>
      var xs := ExpandArguments(args, fname, rootPath).value;
      |xs| == 2 * |args|
      && forall i :: 0 <= i < |args| ==> xs[2 * i] == xs[2 * i + 1] == ReplaceCommandInputFilename(args[i], fname, rootPath)
    decreases |args|
  {
    if |args| > 0 {
      var prefix := args[..|args| - 1];
      ExpandArgumentsSpec(prefix, fname, rootPath);
      assert forall i :: 0 <= i < |prefix| ==> prefix[i] == args[i];
    }
  }

  /** The shell arguments on a non-Windows host: "-c", the templated command, then the expanded arguments. */
  function ShellArgs(v: Command, fname: string, rootPath: string): Option<seq<string>> {
    match ExpandArguments(v.arguments, fname, rootPath)
    case None => None
    case Some(rest) => Some(["-c", ReplaceCommandInputFilename(v.command, fname, rootPath)] + rest)
  }

  /** The checks of executeCommand, in the source's order, and what the found command leads to. */
  function ExecutePlan(files: map<DocumentURI, FileRef>, configs: map<string, seq<LsLanguage>>, commands: seq<Command>,
                       rootPath: string, command: string, arguments: seq<Argument>): Result<Plan, ExecuteError>
  {
    if |arguments| != 1 then Failure(InvalidCommand)
    else if !arguments[0].StringArgument? then Failure(InvalidArgument)
    else
      var uri := arguments[0].s;
      var fname := if Paths.FromURI(uri).Success? then Paths.FromURI(uri).value else "";
      match Decode(command)
      case None => Failure(InvalidCommand)
      case Some(ref) =>
        if ref.uri !in files then Failure(UnknownDocument(uri))
        else match Lookup(configs, files[ref.uri].languageID, commands, ref.name)
          case None => Failure(CommandNotFound(ref.name))
          case Some(v) =>
            if HasPrefix(v.command, ":") then Success(Internal(v.command))
            else match ShellArgs(v, fname, rootPath)
              case None => Failure(InvalidURI(uri))
              case Some(args) => Success(Shell(args))
  }

  /**
   * The round trip of a code action: executing what codeAction offers for an open document
   * (tab-free command name and URI, a URI that converts to a file path) finds a command of
   * the same name and does not fail before the run.
   */
  lemma OfferedRoundTrip(files: map<DocumentURI, FileRef>, configs: map<string, seq<LsLanguage>>, commands: seq<Command>,
                         rootPath: string, uri: DocumentURI, v: Command)
    requires uri in files && Paths.FromURI(uri).Success? && Paths.FromURI(uri).value != ""
    requires '\t' !in v.command && '\t' !in uri
    requires v in commands
    ensures ExecutePlan(files, configs, commands, rootPath, Encoded(uri, v).command, [StringArgument(Encoded(uri, v).arguments[0])]).Success?
  {
    DecodeEncoded(uri, v);
    LookupSpec(configs, files[uri].languageID, commands, v.command);
    var found := Lookup(configs, files[uri].languageID, commands, v.command).value;
    ExpandArgumentsSpec(found.arguments, Paths.FromURI(uri).value, rootPath);
  }

  /** The configuration ":reload-config" reads: commands, languages, root markers, log level and lint debounce. */
  datatype Reloaded = Reloaded(
    commands: seq<Command>,
    languages: map<string, seq<LsLanguage>>,
    rootMarkers: seq<string>,
    logLevel: int,
    lintDebounce: int)

  /** The world executeCommand sees: a shell run in a directory, and the reading of a configuration file. */
  datatype ExecEnv = ExecEnv(
    run: (seq<string>, string) -> FormatRun,
    load: string -> Result<Reloaded, string>)

  // ------------------------------------------------------------------ the handler

  /** The operating-system loop of filterCommands. */
  method MatchesOS(entries: seq<string>, goos: string) returns (found: bool)
    ensures found == NamesOS(entries, goos)
  {
    found := false;
    for i := 0 to |entries|
      invariant found == NamesOS(entries[..i], goos)
    {
      assert forall j :: 0 <= j < i ==> entries[..i + 1][j] == entries[..i][j];
      if TrimSpace(entries[i]) == goos {
        found := true;
      }
      assert entries[..i + 1][i] == entries[i];
    }
    assert entries[..|entries|] == entries;
  }

  /** filterCommands */
  method FilterCommands(uri: DocumentURI, commands: seq<Command>, goos: string) returns (results: seq<Command>)
    ensures results == Offered(uri, commands, goos)
  {
    results := [];
    for i := 0 to |commands|
      invariant results == Offered(uri, commands[..i], goos)
    {
      assert commands[..i + 1][..i] == commands[..i];
      var v := commands[i];
      if v.os != "" {
        var found := MatchesOS(Fields(v.os, ','), goos);
        if !found {
          continue;
        }
      }
      results := results + [Command(v.title, "efm-langserver\t" + v.command + "\t" + uri, [uri], "")];
    }
    assert commands[..|commands|] == commands;
  }

  /** The loop over one key's configs in codeAction. */
  method CollectConfigCommands(uri: DocumentURI, cfgs: seq<LsLanguage>, goos: string) returns (commands: seq<Command>)
    ensures commands == ConfigsOffered(uri, cfgs, goos)
  {
    commands := [];
    for i := 0 to |cfgs|
      invariant commands == ConfigsOffered(uri, cfgs[..i], goos)
    {
      assert cfgs[..i + 1][..i] == cfgs[..i];
      var offered := FilterCommands(uri, cfgs[i].commands, goos);
      commands := commands + offered;
    }
    assert cfgs[..|cfgs|] == cfgs;
  }

  /** codeAction */
  method CodeAction(h: LsHandler, uri: DocumentURI, goos: string) returns (r: Result<seq<Command>, ActionError>)
    ensures r == CodeActions(h.files, h.configs, h.commands, uri, goos)
  {
    if uri !in h.files {
      return Failure(DocumentNotFound(uri));
    }
    var f := h.files[uri];
    var global := FilterCommands(uri, h.commands, goos);
    var fromLang: seq<Command> := [];
    if f.languageID in h.configs {
      fromLang := CollectConfigCommands(uri, h.configs[f.languageID], goos);
    }
    var fromWild: seq<Command> := [];
    if Wildcard in h.configs {
      fromWild := CollectConfigCommands(uri, h.configs[Wildcard], goos);
    }
    return Success(global + fromLang + fromWild);
  }

  /** The inner lookup loop: the first command of the name. */
  method FindIn(cmds: seq<Command>, name: string) returns (found: Option<Command>)
    ensures found == FindCommand(cmds, name)
  {
    for i := 0 to |cmds|
      invariant FindCommand(cmds, name) == FindCommand(cmds[i..], name)
    {
      assert cmds[i..][1..] == cmds[i + 1..];
      if name == cmds[i].command {
        return Some(cmds[i]);
      }
    }
    return None;
  }

  /** A labelled lookup loop over configs: the first config holding the name ends it. */
  method FindInEach(cfgs: seq<LsLanguage>, name: string) returns (found: Option<Command>)
    ensures found == FindInConfigs(cfgs, name)
  {
    for i := 0 to |cfgs|
      invariant FindInConfigs(cfgs, name) == FindInConfigs(cfgs[i..], name)
    {
      assert cfgs[i..][1..] == cfgs[i + 1..];
      found := FindIn(cfgs[i].commands, name);
      if found.Some? {
        return;
      }
    }
    return None;
  }

  /** The argument loop of the shell branch. */
  method BuildArguments(args: seq<string>, fname: string, rootPath: string) returns (r: Option<seq<string>>)
    ensures r == ExpandArguments(args, fname, rootPath)
  {
    var built: seq<string> := [];
    for i := 0 to |args|
      invariant ExpandArguments(args[..i], fname, rootPath) == Some(built)
    {
      assert args[..i + 1][..i] == args[..i];
      var arg := args[i];
      var tmp := ReplaceCommandInputFilename(arg, fname, rootPath);
      if tmp != arg && fname == "" {
        ExpandNoneKept(args, fname, rootPath, i + 1);
        return None;
      }
      assert built + [tmp] + [tmp] == built + [tmp, tmp];
      built := built + [tmp];
      built := built + [tmp];
    }
    assert args[..|args|] == args;
    return Some(built);
  }

  /** A failure among the first i arguments is the failure of all of them. */
  lemma {:induction false} ExpandNoneKept(args: seq<string>, fname: string, rootPath: string, i: nat)
    requires i <= |args| && ExpandArguments(args[..i], fname, rootPath).None?
    ensures ExpandArguments(args, fname, rootPath).None?
    decreases |args|
  {
    if i == |args| {
      assert args[..i] == args;
    } else {
      var prefix := args[..|args| - 1];
      assert prefix[..i] == args[..i];
      ExpandNoneKept(prefix, fname, rootPath, i);
    }
  }

  /** The checks and lookups of executeCommand, before anything runs. */
  method PlanCommand(h: LsHandler, command: string, arguments: seq<Argument>) returns (r: Result<Plan, ExecuteError>)
    ensures r == ExecutePlan(h.files, h.configs, h.commands, h.rootPath, command, arguments)
  {
    if |arguments| != 1 {
      return Failure(InvalidCommand);
    }
    if !arguments[0].StringArgument? {
      return Failure(InvalidArgument);
    }
    var uri := arguments[0].s;
    var fname := "";
    var path := Paths.FromURI(uri);
    if path.Success? {
      fname := path.value;
    }
    var tok := Split(command, '\t');
    if |tok| != 3 || tok[0] != "efm-langserver" {
      return Failure(InvalidCommand);
    }
    if tok[2] !in h.files {
      return Failure(UnknownDocument(uri));
    }
    var f := h.files[tok[2]];
    var found: Option<Command> := None;
    if f.languageID in h.configs {
      found := FindInEach(h.configs[f.languageID], tok[1]);
    }
    if found.None? {
      if Wildcard in h.configs {
        found := FindInEach(h.configs[Wildcard], tok[1]);
      }
      if found.None? {
        found := FindIn(h.commands, tok[1]);
        if found.None? {
          return Failure(CommandNotFound(tok[1]));
        }
      }
    }
    var v := found.value;
    if HasPrefix(v.command, ":") {
      return Success(Internal(v.command));
    }
    var rest := BuildArguments(v.arguments, fname, h.rootPath);
    if rest.None? {
      return Failure(InvalidURI(uri));
    }
    return Success(Shell(["-c", ReplaceCommandInputFilename(v.command, fname, h.rootPath)] + rest.value));
  }

  /**
   * executeCommand: a shell command runs in the root path and answers its output, or fails
   * with the error exec returned; an internal command answers "OK", and ":reload-config" first replaces the commands,
   * languages, root markers, log level and lint debounce with the reread configuration.
   */
  method ExecuteCommand(h: LsHandler, command: string, arguments: seq<Argument>, env: ExecEnv) returns (r: Result<string, ExecuteError>)
    modifies h`commands, h`configs, h`rootMarkers, h`loglevel, h`lintDebounce
    ensures var plan := ExecutePlan(old(h.files), old(h.configs), old(h.commands), old(h.rootPath), command, arguments);
      && (plan.Failure? ==> r == Failure(plan.error))
      && (plan.Success? && plan.value.Shell? ==>
            r == (match env.run(plan.value.args, old(h.rootPath))
                  case FormatSucceeded(output) => Success(output)
                  case FormatFailed(error, _) => Failure(CommandFailed(error))))
      && (plan.Success? && plan.value.Internal? && plan.value.name == ":reload-config" && env.load(old(h.filename)).Failure? ==>
            r == Failure(ConfigUnreadable(env.load(old(h.filename)).error)))
      && (plan.Success? && plan.value.Internal? && (plan.value.name != ":reload-config" || env.load(old(h.filename)).Success?) ==>
            r == Success("OK"))
      && (plan.Success? && plan.value.Internal? && plan.value.name == ":reload-config" && env.load(old(h.filename)).Success? ==>
            var c := env.load(old(h.filename)).value;
            h.commands == c.commands && h.configs == c.languages && h.rootMarkers == c.rootMarkers
            && h.loglevel == c.logLevel && h.lintDebounce == c.lintDebounce)
      && (!(plan.Success? && plan.value.Internal? && plan.value.name == ":reload-config" && env.load(old(h.filename)).Success?) ==>
            h.commands == old(h.commands) && h.configs == old(h.configs) && h.rootMarkers == old(h.rootMarkers)
            && h.loglevel == old(h.loglevel) && h.lintDebounce == old(h.lintDebounce))
  {
    var plan := PlanCommand(h, command, arguments);
    if plan.Failure? {
      return Failure(plan.error);
    }
    match plan.value
    case Shell(args) =>
      var run := env.run(args, h.rootPath);
      if run.FormatFailed? {
        return Failure(CommandFailed(run.error));
      }
      return Success(run.stdout);
    case Internal(name) =>
      if name == ":reload-config" {
        var config := env.load(h.filename);
        if config.Failure? {
          return Failure(ConfigUnreadable(config.error));
        }
        h.commands := config.value.commands;
        h.configs := config.value.languages;
        h.rootMarkers := config.value.rootMarkers;
        h.loglevel := config.value.logLevel;
        h.lintDebounce := config.value.lintDebounce;
      }
      return Success("OK");
  }
}
