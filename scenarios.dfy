/**
 * Call sequences across the provider and the activation state, stated as
 * methods on freshly created objects so that each result follows from the
 * contracts of the operations alone.
 */
module Scenarios {
  import opened GraphModel
  import opened Workspace
  import opened Host
  import opened Provider
  import opened Extension

  /** Resolving the sidebar sets the baseline, so an update whose build has the same nodes posts nothing. */
  method BaselineSuppressesUpdate(ws: WorkspaceState, built: Graph, rebuilt: Graph)
    returns (resolved: Outcome, updated: Outcome, posts: seq<Graph>)
    requires CheckWorkspace(ws) == Ready && rebuilt.nodes == built.nodes
    ensures resolved == Rendered && updated == Suppressed && posts == []
  {
    var commits := new CommitLog();
    var view := new Webview.Blank();
    var provider := new GitVisualizerProvider();
    resolved := provider.ResolveWebviewView(view, ws, commits, built);
    updated := provider.UpdateGraphData(ws, rebuilt);
    posts := view.posted;
  }

  /**
   * Ticks before the sidebar view or any panel exists: the first fails in the
   * provider and ends early, the second gets through the provider (whose
   * stored graph was already replaced) and fails at the panel, and the third
   * is suppressed in both.
   */
  method TicksWithoutTargets(ws: WorkspaceState, built: Graph)
    returns (first: Outcome, second: Outcome, third: Outcome)
    requires CheckWorkspace(ws) == Ready
    ensures first == Aborted && second == TargetMissing && third == Suppressed
  {
    var ext := new ExtensionState.Activate();
    var p1, p2, p3;
    p1, first := ext.Tick(ws, built, built);
    p2, second := ext.Tick(ws, built, built);
    p3, third := ext.Tick(ws, built, built);
  }

  /**
   * Once the panel is disposed, running the command again with the same
   * commit log object returns early and leaves no panel open; with a new log
   * object a fresh panel is created.
   */
  method ReopenAfterDispose(ws: WorkspaceState, built: Graph, rebuilt: Graph)
    returns (same: Outcome, panelAfterSame: bool, changed: Outcome, panelAfterChanged: bool)
    requires CheckWorkspace(ws) == Ready
    ensures same == CommitsUnchanged && !panelAfterSame
    ensures changed == Rendered && panelAfterChanged
  {
    var ext := new ExtensionState.Activate();
    var log := new CommitLog();
    var first := ext.Visualize(ws, log, built);
    ext.DisposePanel();
    same := ext.Visualize(ws, log, rebuilt);
    panelAfterSame := ext.currentPanel != null;
    var newLog := new CommitLog();
    changed := ext.Visualize(ws, newLog, rebuilt);
    panelAfterChanged := ext.currentPanel != null;
  }
}
