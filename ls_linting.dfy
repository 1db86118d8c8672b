/**
 * langserver/linting.go: the older copy of the lint core, on the langserver handler.
 * Its config selection, entry mapping, severity rules and ledger are those of
 * core/linting.go line for line (only logging and locking differ), so the runs here are
 * proved against the core's Lint specification applied to the configs' lint fields.
 */
module LsLinting {
  import opened Wrappers
  import opened Types
  import opened CoreHandler
  import CoreLinting
  import opened LsServer

  /**
   * ScheduleLinting: with a timer pending, only reset it, so the pending callback keeps
   * the URI and event it captured; otherwise arm a timer for this URI and event.
   */
  method ScheduleLinting(h: LsHandler, uri: DocumentURI, event: EventType)
    modifies h`lintTimer
    ensures old(h.lintTimer).Some? ==> h.lintTimer == old(h.lintTimer)
    ensures old(h.lintTimer).None? ==> h.lintTimer == Some(PendingLint(uri, event))
  {
    if h.lintTimer.Some? {
      return;
    }
    h.lintTimer := Some(PendingLint(uri, event));
  }

  /**
   * The timer callback under the package mutex: clear the timer, cancel the handle
   * running for the captured URI, and register a fresh one, so each URI has at most one.
   */
  method FireLintTimer(h: LsHandler) returns (run: LintRun)
    requires h.Valid() && h.lintTimer.Some?
    modifies h`lintTimer, h`running, h`cancelled, h`nextHandle
    ensures h.Valid()
    ensures h.lintTimer.None?
    ensures run == LintRun(old(h.lintTimer).value.uri, old(h.lintTimer).value.event, old(h.nextHandle))
    ensures h.running == old(h.running)[run.uri := run.handle]
    ensures h.cancelled == old(h.cancelled) + (if run.uri in old(h.running) then {old(h.running)[run.uri]} else {})
  {
    var pending := h.lintTimer.value;
    h.lintTimer := None;
    if pending.uri in h.running {
      h.cancelled := h.cancelled + {h.running[pending.uri]};
    }
    run := LintRun(pending.uri, pending.event, h.nextHandle);
    h.running := h.running[pending.uri := h.nextHandle];
    h.nextHandle := h.nextHandle + 1;
  }

  /**
   * lintDocument: the same outcome and ledger as the core's Lint on the lint fields of
   * the langserver configs.
   */
  method LintDocument(h: LsHandler, uri: DocumentURI, event: EventType, env: CoreLinting.Env)
    returns (outcome: CoreLinting.LintOutcome)
    modifies h`lastPublishedURIs
    ensures CoreLinting.LintResult(outcome, h.lastPublishedURIs)
      == CoreLinting.Lint(h.files, BaseConfigs(h.configs), h.rootMarkers, h.rootPath, old(h.lastPublishedURIs), uri, event, env)
  {
    if uri !in h.files {
      return CoreLinting.Halted(CoreLinting.Failed(CoreLinting.DocumentNotFound(uri)));
    }
    var f := h.files[uri];
    var path := Paths.FromURI(uri);
    if path.Failure? {
      return CoreLinting.Halted(CoreLinting.Failed(CoreLinting.InvalidURI(uri)));
    }
    var fname := path.value;
    var configs := CoreLinting.LintConfigsForDocument(env.fs, fname, f.languageID, BaseConfigs(h.configs), event);
    if |configs| == 0 {
      return CoreLinting.Linted(map[]);
    }
    var ctx := CoreLinting.LintContext(uri, fname, f, CoreLinting.LedgerOf(h.lastPublishedURIs, f.languageID),
                                       h.rootMarkers, h.rootPath, env);
    var step := CoreLinting.RunAll(ctx, configs);
    if step.Stop? {
      return CoreLinting.Halted(step.halt);
    }
    var workspace := CoreLinting.HasWorkspace(configs);
    if workspace {
      h.lastPublishedURIs := h.lastPublishedURIs[f.languageID := step.acc.published];
    }
    return CoreLinting.Linted(step.acc.diags);
  }
}
