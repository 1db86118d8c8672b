/**
 * The langserver's workspace notifications: the change of workspace folders
 * (langserver/handle_workspace_did_change_workspace_folders.go) and the two copies of the
 * configuration change (langserver/handle_workspace_didChangeConfiguration.go and
 * langserver/handle_workspace_did_change_configuration.go).
 */
module LsWorkspace {
  import opened Wrappers
  import opened Types
  import opened LsServer
  import Paths

  // ------------------------------------------------------------------ workspace folders

  datatype FoldersChange = FoldersChange(added: seq<WorkspaceFolder>, removed: seq<WorkspaceFolder>)

  /** Some entry of the list names the URI. */
  predicate Names(entries: seq<WorkspaceFolder>, uri: DocumentURI) {
    exists j :: 0 <= j < |entries| && entries[j].uri == uri
  }

  /** Some folder of the list has the URI. */
  predicate Known(folders: seq<string>, uri: DocumentURI) {
    exists i :: 0 <= i < |folders| && Paths.ToURI(folders[i]) == uri
  }

  /** The inner removal loop: the folders whose URI is not the removed one, in order. */
  function KeptFor(folders: seq<string>, uri: DocumentURI): seq<string>
    decreases |folders|
  {
    if |folders| == 0 then []
    else KeptFor(folders[..|folders| - 1], uri)
         + (if Paths.ToURI(folders[|folders| - 1]) != uri then [folders[|folders| - 1]] else [])
  }

  /** The removal loop as written: one filtered copy of the folders per removed entry. */
  function RemovalPass(folders: seq<string>, removed: seq<WorkspaceFolder>): seq<string>
    decreases |removed|
  {
    if |removed| == 0 then []
    else RemovalPass(folders, removed[..|removed| - 1]) + KeptFor(folders, removed[|removed| - 1].uri)
  }

  /** The addition of one folder: its path, unless an old folder has its URI or it is not a file URI. */
  function AddedFolder(folders: seq<string>, added: WorkspaceFolder): seq<string> {
    if Known(folders, added.uri) then []
    else match Paths.FromURI(added.uri)
      case Success(folder) => [folder]
      case Failure(_) => []
  }

  /** The addition loop: each added folder in order, checked against the old folders only. */
  function AddedPass(folders: seq<string>, added: seq<WorkspaceFolder>): seq<string>
    decreases |added|
  {
    if |added| == 0 then []
    else AddedPass(folders, added[..|added| - 1]) + AddedFolder(folders, added[|added| - 1])
  }

  /** didChangeWorkspaceFolders as written. */
  function FoldersAfterChange(folders: seq<string>, event: FoldersChange): seq<string> {
    RemovalPass(folders, event.removed) + AddedPass(folders, event.added)
  }

  lemma {:induction false} KeptForMembers(folders: seq<string>, uri: DocumentURI, f: string)
    ensures f in KeptFor(folders, uri) <==> f in folders && Paths.ToURI(f) != uri
    decreases |folders|
  {
    if |folders| > 0 {
      KeptForMembers(folders[..|folders| - 1], uri, f);
      assert folders == folders[..|folders| - 1] + [folders[|folders| - 1]];
    }
  }

  /**
   * As written, a folder survives the removal loop exactly when some removed entry names a
   * different folder: without removals every folder is dropped.
   */
  lemma {:induction false} RemovalPassMembers(folders: seq<string>, removed: seq<WorkspaceFolder>, f: string)
    ensures f in RemovalPass(folders, removed) <==>
      f in folders && exists j :: 0 <= j < |removed| && removed[j].uri != Paths.ToURI(f)
    decreases |removed|
  {
    if |removed| > 0 {
      var init, last := removed[..|removed| - 1], removed[|removed| - 1];
      RemovalPassMembers(folders, init, f);
      KeptForMembers(folders, last.uri, f);
      assert f in RemovalPass(folders, removed) <==>
        f in RemovalPass(folders, init) || f in KeptFor(folders, last.uri);
      NamesOtherSnoc(removed, init, Paths.ToURI(f));
    }
  }

  /** Whether a removed entry names a URI other than u, split at the last entry. */
  lemma NamesOtherSnoc(removed: seq<WorkspaceFolder>, init: seq<WorkspaceFolder>, u: DocumentURI)
    requires |removed| > 0 && init == removed[..|removed| - 1]
    ensures (exists j :: 0 <= j < |removed| && removed[j].uri != u) <==>
      (exists j :: 0 <= j < |init| && init[j].uri != u) || removed[|removed| - 1].uri != u
  {
    if exists j :: 0 <= j < |removed| && removed[j].uri != u {
      var j :| 0 <= j < |removed| && removed[j].uri != u;
      if j < |removed| - 1 {
        assert init[j] == removed[j];
      }
    }
    if exists j :: 0 <= j < |init| && init[j].uri != u {
      var j :| 0 <= j < |init| && init[j].uri != u;
      assert removed[j] == init[j];
    }
  }

  /** An added folder appears exactly when it is a file URI that no old folder has. */
  lemma {:induction false} AddedPassMembers(folders: seq<string>, added: seq<WorkspaceFolder>, p: string)
    ensures p in AddedPass(folders, added) <==>
      exists j :: 0 <= j < |added| && !Known(folders, added[j].uri) && Paths.FromURI(added[j].uri) == Success(p)
    decreases |added|
  {
    if |added| > 0 {
      var init := added[..|added| - 1];
      AddedPassMembers(folders, init, p);
      if exists j :: 0 <= j < |added| && !Known(folders, added[j].uri) && Paths.FromURI(added[j].uri) == Success(p) {
        var j :| 0 <= j < |added| && !Known(folders, added[j].uri) && Paths.FromURI(added[j].uri) == Success(p);
        if j < |added| - 1 {
          assert init[j] == added[j];
        }
      }
      if exists j :: 0 <= j < |init| && !Known(folders, init[j].uri) && Paths.FromURI(init[j].uri) == Success(p) {
        var j :| 0 <= j < |init| && !Known(folders, init[j].uri) && Paths.FromURI(init[j].uri) == Success(p);
        assert added[j] == init[j];
      }
    }
  }

  /**
   * The removal loop as written loses every folder when nothing is removed, and lists a
   * surviving folder once per removed entry.
   */
  lemma AsWrittenRemoval()
    ensures RemovalPass(["/a"], []) == []
    ensures RemovalPass(["/a"], [WorkspaceFolder("file:///b", "b"), WorkspaceFolder("file:///c", "c")]) == ["/a", "/a"]
  {
    var b, c := WorkspaceFolder("file:///b", "b"), WorkspaceFolder("file:///c", "c");
    assert Paths.ToURI("/a") == "file:///a";
    assert Paths.ToURI("/a")[8] != b.uri[8] && Paths.ToURI("/a")[8] != c.uri[8];
    RemovalTwice("/a", b, c);
  }

  /** A folder that neither of two removed entries names is listed twice by the removal loop. */
  lemma RemovalTwice(p: string, b: WorkspaceFolder, c: WorkspaceFolder)
    requires Paths.ToURI(p) != b.uri && Paths.ToURI(p) != c.uri
    ensures RemovalPass([p], [b, c]) == [p, p]
  {
    KeptForOne(p, b.uri);
    KeptForOne(p, c.uri);
    assert [b, c][..1] == [b] && [b][..0] == [];
    assert RemovalPass([p], [b]) == RemovalPass([p], []) + KeptFor([p], b.uri);
    assert RemovalPass([p], [b, c]) == RemovalPass([p], [b]) + KeptFor([p], c.uri);
  }

  lemma KeptForOne(p: string, uri: DocumentURI)
    ensures KeptFor([p], uri) == if Paths.ToURI(p) != uri then [p] else []
  {
    assert [p][..0] == [];
  }

  /** The folders whose URI no removed entry names, in order: the removal the handler means. */
  function Survivors(folders: seq<string>, removed: seq<WorkspaceFolder>): seq<string>
    decreases |folders|
  {
    if |folders| == 0 then []
    else Survivors(folders[..|folders| - 1], removed)
         + (if Names(removed, Paths.ToURI(folders[|folders| - 1])) then [] else [folders[|folders| - 1]])
  }

  /** The corrected update: the surviving folders, then the added ones. */
  function IntendedFolders(folders: seq<string>, event: FoldersChange): seq<string> {
    Survivors(folders, event.removed) + AddedPass(folders, event.added)
  }

  /**
   * The corrected removal keeps exactly the folders no removed entry names, keeps them all
   * when nothing is removed, and agrees with the code as written for a single removal.
   */
  lemma {:induction false} SurvivorsSpec(folders: seq<string>, removed: seq<WorkspaceFolder>, f: string)
    ensures f in Survivors(folders, removed) <==> f in folders && !Names(removed, Paths.ToURI(f))
    ensures removed == [] ==> Survivors(folders, removed) == folders
    ensures |removed| == 1 ==> Survivors(folders, removed) == RemovalPass(folders, removed)
    decreases |folders|
  {
    if |folders| > 0 {
      var init := folders[..|folders| - 1];
      SurvivorsSpec(init, removed, f);
      assert folders == init + [folders[|folders| - 1]];
      if |removed| == 1 {
        assert removed[..0] == [];
        assert RemovalPass(init, removed) == KeptFor(init, removed[0].uri);
        assert Names(removed, Paths.ToURI(folders[|folders| - 1])) <==> Paths.ToURI(folders[|folders| - 1]) == removed[0].uri;
      }
    } else if |removed| == 1 {
      assert removed[..0] == [];
    }
  }

  /** Whether an old folder has the URI: the inner loop of the addition pass. */
  method FindFolder(folders: seq<string>, uri: DocumentURI) returns (found: bool)
    ensures found == Known(folders, uri)
  {
    found := false;
    for i := 0 to |folders|
      invariant !Known(folders[..i], uri)
    {
      if Paths.ToURI(folders[i]) == uri {
        found := true;
        assert folders[..i + 1][i] == folders[i];
        break;
      }
      assert folders[..i + 1] == folders[..i] + [folders[i]];
    }
    if !found {
      assert folders[..|folders|] == folders;
    }
  }

  /** The inner loop of the removal pass. */
  method KeepOthers(folders: seq<string>, uri: DocumentURI) returns (kept: seq<string>)
    ensures kept == KeptFor(folders, uri)
  {
    kept := [];
    for i := 0 to |folders|
      invariant kept == KeptFor(folders[..i], uri)
    {
      assert folders[..i + 1][..i] == folders[..i];
      if Paths.ToURI(folders[i]) != uri {
        kept := kept + [folders[i]];
      }
    }
    assert folders[..|folders|] == folders;
  }

  /** The two loops of didChangeWorkspaceFolders, on the old folder list. */
  method ComputeFolders(folders: seq<string>, event: FoldersChange) returns (result: seq<string>)
    ensures result == FoldersAfterChange(folders, event)
  {
    result := RemoveEach(folders, event.removed);
    result := AddEach(folders, event.added, result);
  }

  /** The removal loop: one filtered copy of the folders per removed entry. */
  method RemoveEach(folders: seq<string>, removed: seq<WorkspaceFolder>) returns (result: seq<string>)
    ensures result == RemovalPass(folders, removed)
  {
    result := [];
    for r := 0 to |removed|
      invariant result == RemovalPass(folders, removed[..r])
    {
      assert removed[..r + 1][..r] == removed[..r];
      var kept := KeepOthers(folders, removed[r].uri);
      result := result + kept;
    }
    assert removed[..|removed|] == removed;
  }

  /** The addition loop, appending to the list built so far. */
  method AddEach(folders: seq<string>, added: seq<WorkspaceFolder>, start: seq<string>) returns (result: seq<string>)
    ensures result == start + AddedPass(folders, added)
  {
    result := start;
    for a := 0 to |added|
      invariant result == start + AddedPass(folders, added[..a])
    {
      assert added[..a + 1][..a] == added[..a];
      var found := FindFolder(folders, added[a].uri);
      if !found {
        var folder := Paths.FromURI(added[a].uri);
        if folder.Success? {
          result := result + [folder.value];
        }
      }
    }
    assert added[..|added|] == added;
  }

  /**
   * handleDidChangeWorkspaceWorkspaceFolders, as written: missing parameters are refused;
   * otherwise the folder list is replaced by the result of the two loops.
   */
  method DidChangeWorkspaceFolders(h: LsHandler, params: Option<FoldersChange>) returns (ok: bool)
    modifies h`folders
    ensures ok <==> params.Some?
    ensures h.folders == if params.Some? then FoldersAfterChange(old(h.folders), params.value) else old(h.folders)
  {
    if params.None? {
      return false;
    }
    var folders := ComputeFolders(h.folders, params.value);
    h.folders := folders;
    return true;
  }

  /** The corrected removal: one pass over the folders, each checked against every removed entry. */
  method KeepSurvivors(folders: seq<string>, removed: seq<WorkspaceFolder>) returns (kept: seq<string>)
    ensures kept == Survivors(folders, removed)
  {
    kept := [];
    for i := 0 to |folders|
      invariant kept == Survivors(folders[..i], removed)
    {
      assert folders[..i + 1][..i] == folders[..i];
      var named := false;
      for j := 0 to |removed|
        invariant named == exists k :: 0 <= k < j && removed[k].uri == Paths.ToURI(folders[i])
      {
        if removed[j].uri == Paths.ToURI(folders[i]) {
          named := true;
        }
      }
      if !named {
        kept := kept + [folders[i]];
      }
    }
    assert folders[..|folders|] == folders;
  }

  // ------------------------------------------------------------------ configuration

  /** The handler fields a configuration change may replace. */
  datatype Settings = Settings(
    configs: map<string, seq<LsLanguage>>,
    rootMarkers: seq<string>,
    commands: seq<Command>,
    loglevel: int,
    lintDebounce: int,
    formatDebounce: int,
    logFile: string)

  /**
   * didChangeConfiguration of handle_workspace_didChangeConfiguration.go: languages and root
   * markers replaced when given, log level and debounces when positive.
   */
  function Applied(s: Settings, config: LsConfig): Settings {
    s.(configs := if config.languages.Some? then config.languages.value else s.configs,
       rootMarkers := if config.rootMarkers.Some? then config.rootMarkers.value else s.rootMarkers,
       loglevel := if config.logLevel > 0 then config.logLevel else s.loglevel,
       lintDebounce := if config.lintDebounce > 0 then config.lintDebounce else s.lintDebounce,
       formatDebounce := if config.formatDebounce > 0 then config.formatDebounce else s.formatDebounce)
  }

  /**
   * didChangeConfiguration of handle_workspace_did_change_configuration.go: also the
   * commands when given, and the log file when one is named and it can be opened.
   */
  function AppliedWithLog(s: Settings, config: LsConfig, canOpen: string -> bool): Settings {
    Applied(s, config).(
      commands := if config.commands.Some? then config.commands.value else s.commands,
      logFile := if config.logFile != "" && canOpen(config.logFile) then config.logFile else s.logFile)
  }

  /**
   * Applying a configuration is idempotent, an empty one changes nothing, and what it sets
   * is what the configuration gives.
   */
  lemma AppliedSpec(s: Settings, config: LsConfig, canOpen: string -> bool)
    ensures Applied(Applied(s, config), config) == Applied(s, config)
    ensures AppliedWithLog(AppliedWithLog(s, config, canOpen), config, canOpen) == AppliedWithLog(s, config, canOpen)
    ensures config.languages.None? && config.rootMarkers.None? && config.commands.None?
            && config.logLevel <= 0 && config.lintDebounce <= 0 && config.formatDebounce <= 0 && config.logFile == "" ==>
      Applied(s, config) == s && AppliedWithLog(s, config, canOpen) == s
    ensures Applied(s, config).commands == s.commands && Applied(s, config).logFile == s.logFile
    ensures config.languages.Some? ==> AppliedWithLog(s, config, canOpen).configs == config.languages.value
  {
  }

  function SettingsOf(h: LsHandler): Settings
    reads h
  {
    Settings(h.configs, h.rootMarkers, h.commands, h.loglevel, h.lintDebounce, h.formatDebounce, h.logFile)
  }

  /** The field updates both copies of didChangeConfiguration make. */
  method ApplyFields(h: LsHandler, config: LsConfig)
    modifies h`configs, h`rootMarkers, h`loglevel, h`lintDebounce, h`formatDebounce
    ensures SettingsOf(h) == Applied(old(SettingsOf(h)), config)
  {
    if config.languages.Some? {
      h.configs := config.languages.value;
    }
    if config.rootMarkers.Some? {
      h.rootMarkers := config.rootMarkers.value;
    }
    if config.logLevel > 0 {
      h.loglevel := config.logLevel;
    }
    if config.lintDebounce > 0 {
      h.lintDebounce := config.lintDebounce;
    }
    if config.formatDebounce > 0 {
      h.formatDebounce := config.formatDebounce;
    }
    if config.logLevel > 0 {
      h.loglevel := config.logLevel;
    }
  }

  /** handleWorkspaceDidChangeConfiguration of handle_workspace_didChangeConfiguration.go. */
  method DidChangeConfiguration(h: LsHandler, params: Option<LsConfig>) returns (ok: bool)
    modifies h`configs, h`rootMarkers, h`loglevel, h`lintDebounce, h`formatDebounce
    ensures ok <==> params.Some?
    ensures SettingsOf(h) == if params.Some? then Applied(old(SettingsOf(h)), params.value) else old(SettingsOf(h))
  {
    if params.None? {
      return false;
    }
    ApplyFields(h, params.value);
    return true;
  }

  /**
   * handleWorkspaceDidChangeConfiguration of handle_workspace_did_change_configuration.go,
   * which also replaces the commands between the root markers and the log level, and
   * switches the log file last; canOpen says whether a log file can be opened for appending.
   */
  method DidChangeConfigurationWithLog(h: LsHandler, params: Option<LsConfig>, canOpen: string -> bool) returns (ok: bool)
    modifies h`configs, h`rootMarkers, h`commands, h`loglevel, h`lintDebounce, h`formatDebounce, h`logFile
    ensures ok <==> params.Some?
    ensures SettingsOf(h) == if params.Some? then AppliedWithLog(old(SettingsOf(h)), params.value, canOpen) else old(SettingsOf(h))
  {
    if params.None? {
      return false;
    }
    var config := params.value;
    ApplyFields(h, config);
    if config.commands.Some? {
      h.commands := config.commands.value;
    }
    if config.logFile != "" {
      if canOpen(config.logFile) {
        h.logFile := config.logFile;
      }
    }
    return true;
  }
}
