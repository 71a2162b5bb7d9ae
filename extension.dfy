/**
 * The state captured by extension activation: the sidebar provider, the
 * module-level commit log of the `visualize` command, and the panel and
 * stored graph shared by that command and the two-second timer tick.
 */
module Extension {
  import opened GraphModel
  import opened Workspace
  import opened ChangeDetection
  import opened Host
  import opened Provider

  class ExtensionState {
    const provider: GitVisualizerProvider
    var prevCommits: CommitLog?
    var currentPanel: Webview?
    var prevGraphData: Option<Graph>

    /** The editor panel and the sidebar view are distinct webviews. */
    ghost predicate Valid()
      reads this, provider
    {
      currentPanel != null ==> currentPanel != provider.view
    }

    /** Activation: a fresh provider, no panel, no stored graph, no commit log seen. */
    constructor Activate()
      ensures Valid() && fresh(provider)
      ensures provider.view == null && provider.prevCommits == null && provider.prevGraphData == None
      ensures prevCommits == null && currentPanel == null && prevGraphData == None
    {
      provider := new GitVisualizerProvider();
      prevCommits := null;
      currentPanel := null;
      prevGraphData := None;
    }

    /** The editor resolves the sidebar view on the provider registered at activation. */
    method ResolveSidebar(view: Webview, ws: WorkspaceState, currCommits: CommitLog, built: Graph)
      returns (outcome: Outcome)
      requires Valid() && view != currentPanel
      modifies provider, view
      ensures Valid() && provider.view == view && view.posted == old(view.posted)
      ensures CheckWorkspace(ws).Refused? ==>
        outcome == Rejected(CheckWorkspace(ws).error) &&
        provider.prevCommits == old(provider.prevCommits) && provider.prevGraphData == old(provider.prevGraphData) &&
        view.html == old(view.html)
      ensures CheckWorkspace(ws) == Ready && currCommits == old(provider.prevCommits) ==>
        outcome == CommitsUnchanged &&
        provider.prevCommits == old(provider.prevCommits) && provider.prevGraphData == old(provider.prevGraphData) &&
        view.html == old(view.html)
      ensures CheckWorkspace(ws) == Ready && currCommits != old(provider.prevCommits) ==>
        outcome == Rendered &&
        provider.prevCommits == currCommits && provider.prevGraphData == Some(built) && view.html == Some(built)
    {
      outcome := provider.ResolveWebviewView(view, ws, currCommits, built);
    }

    /**
     * The `visualize` command. After the guards it returns when the commit
     * log is the very object it saw last; otherwise it records that object,
     * replaces the stored graph, and posts to the open panel or, with none
     * open, creates one whose page embeds the graph.
     */
    method Visualize(ws: WorkspaceState, currCommits: CommitLog, built: Graph) returns (outcome: Outcome)
      requires Valid()
      modifies this, currentPanel
      ensures Valid()
      ensures CheckWorkspace(ws).Refused? ==>
        outcome == Rejected(CheckWorkspace(ws).error) &&
        prevCommits == old(prevCommits) && prevGraphData == old(prevGraphData) && currentPanel == old(currentPanel) &&
        (currentPanel != null ==>
          currentPanel.posted == old(currentPanel.posted) && currentPanel.html == old(currentPanel.html))
      ensures CheckWorkspace(ws) == Ready && currCommits == old(prevCommits) ==>
        outcome == CommitsUnchanged &&
        prevCommits == old(prevCommits) && prevGraphData == old(prevGraphData) && currentPanel == old(currentPanel) &&
        (currentPanel != null ==>
          currentPanel.posted == old(currentPanel.posted) && currentPanel.html == old(currentPanel.html))
      ensures CheckWorkspace(ws) == Ready && currCommits != old(prevCommits) ==>
        prevCommits == currCommits && prevGraphData == Some(built)
      ensures CheckWorkspace(ws) == Ready && currCommits != old(prevCommits) && old(currentPanel) != null ==>
        outcome == Posted && currentPanel == old(currentPanel) &&
        currentPanel.posted == old(currentPanel.posted) + [built] && currentPanel.html == old(currentPanel.html)
      ensures CheckWorkspace(ws) == Ready && currCommits != old(prevCommits) && old(currentPanel) == null ==>
        outcome == Rendered && currentPanel != null && fresh(currentPanel) &&
        currentPanel.html == Some(built) && currentPanel.posted == []
    {
      var check := CheckWorkspace(ws);
      if check.Refused? {
        return Rejected(check.error);
      }
      if currCommits == prevCommits {
        return CommitsUnchanged;
      }
      prevCommits := currCommits;
      prevGraphData := Some(built);
      if currentPanel != null {
        currentPanel.posted := currentPanel.posted + [built];
        outcome := Posted;
      } else {
        currentPanel := new Webview.WithPage(built);
        outcome := Rendered;
      }
    }

    /** The panel's dispose handler forgets the panel. */
    method DisposePanel()
      requires Valid()
      modifies this`currentPanel
      ensures Valid() && currentPanel == null
    {
      currentPanel := null;
    }

    /**
     * One timer tick. It first awaits the provider's update, whose failure
     * ends the tick; then it runs the same guards and change test on its own
     * stored graph and posts to the panel, whose absence fails the non-null
     * assertion only after the stored graph was replaced.
     */
    method Tick(ws: WorkspaceState, providerBuilt: Graph, built: Graph)
      returns (providerOutcome: Outcome, outcome: Outcome)
      requires Valid()
      modifies provider`prevGraphData, provider.view, this`prevGraphData, currentPanel
      ensures Valid()
      ensures provider.view != null ==> provider.view.html == old(provider.view.html)
      ensures currentPanel != null ==> currentPanel.html == old(currentPanel.html)
      ensures CheckWorkspace(ws).Refused? ==>
        providerOutcome == Rejected(CheckWorkspace(ws).error) && outcome == providerOutcome &&
        provider.prevGraphData == old(provider.prevGraphData) && prevGraphData == old(prevGraphData) &&
        (provider.view != null ==> provider.view.posted == old(provider.view.posted)) &&
        (currentPanel != null ==> currentPanel.posted == old(currentPanel.posted))
      ensures CheckWorkspace(ws) == Ready ==>
        var p := TickStep(old(provider.prevGraphData), providerBuilt);
        provider.prevGraphData == p.stored &&
        (provider.view != null ==>
          provider.view.posted == old(provider.view.posted) + (if p.post.Some? then [providerBuilt] else []))
      ensures CheckWorkspace(ws) == Ready && providerOutcome == TargetMissing ==>
        outcome == Aborted && prevGraphData == old(prevGraphData) &&
        (currentPanel != null ==> currentPanel.posted == old(currentPanel.posted))
      ensures CheckWorkspace(ws) == Ready && providerOutcome != TargetMissing ==>
        var s := TickStep(old(prevGraphData), built);
        prevGraphData == s.stored &&
        (s.post.None? ==> outcome == Suppressed && (currentPanel != null ==> currentPanel.posted == old(currentPanel.posted))) &&
        (s.post.Some? && currentPanel == null ==> outcome == TargetMissing) &&
        (s.post.Some? && currentPanel != null ==> outcome == Posted && currentPanel.posted == old(currentPanel.posted) + [built])
      ensures CheckWorkspace(ws) == Ready ==>
        (providerOutcome == TargetMissing <==>
          provider.view == null && TickStep(old(provider.prevGraphData), providerBuilt).post.Some?)
    {
      providerOutcome := provider.UpdateGraphData(ws, providerBuilt);
      if providerOutcome == TargetMissing {
        return providerOutcome, Aborted;
      }
      var check := CheckWorkspace(ws);
      if check.Refused? {
        return providerOutcome, Rejected(check.error);
      }
      if !NodesChanged(prevGraphData, built) {
        return providerOutcome, Suppressed;
      }
      prevGraphData := Some(built);
      if currentPanel == null {
        return providerOutcome, TargetMissing;
      }
      currentPanel.posted := currentPanel.posted + [built];
      outcome := Posted;
    }
  }
}
