/**
 * The sidebar view provider: it remembers the last commit log object and the
 * last graph it showed, sets the page when the view is resolved, and posts a
 * new graph on an update only when the nodes changed.
 */
module Provider {
  import opened GraphModel
  import opened Workspace
  import opened ChangeDetection
  import opened Host

  class GitVisualizerProvider {
    var view: Webview?
    var prevCommits: CommitLog?
    var prevGraphData: Option<Graph>

    constructor ()
      ensures view == null && prevCommits == null && prevGraphData == None
    {
      view := null;
      prevCommits := null;
      prevGraphData := None;
    }

    /**
     * The editor hands over the sidebar's webview. The view is remembered
     * before any guard runs; once the guards pass and the commit log is a new
     * object, the freshly built graph becomes the baseline and is embedded in
     * the page.
     */
    method ResolveWebviewView(panel: Webview, ws: WorkspaceState, currCommits: CommitLog, built: Graph)
      returns (outcome: Outcome)
      modifies this, panel
      ensures view == panel && panel.posted == old(panel.posted)
      ensures CheckWorkspace(ws).Refused? ==>
        outcome == Rejected(CheckWorkspace(ws).error) &&
        prevCommits == old(prevCommits) && prevGraphData == old(prevGraphData) && panel.html == old(panel.html)
      ensures CheckWorkspace(ws) == Ready && currCommits == old(prevCommits) ==>
        outcome == CommitsUnchanged &&
        prevCommits == old(prevCommits) && prevGraphData == old(prevGraphData) && panel.html == old(panel.html)
      ensures CheckWorkspace(ws) == Ready && currCommits != old(prevCommits) ==>
        outcome == Rendered &&
        prevCommits == currCommits && prevGraphData == Some(built) && panel.html == Some(built)
    {
      view := panel;
      var check := CheckWorkspace(ws);
      if check.Refused? {
        return Rejected(check.error);
      }
      if currCommits == prevCommits {
        return CommitsUnchanged;
      }
      prevCommits := currCommits;
      prevGraphData := Some(built);
      panel.html := prevGraphData;
      outcome := Rendered;
    }

    /**
     * One update: after the guards, a build whose nodes equal the stored ones
     * is dropped; any other build replaces the stored graph and is posted to
     * the view. With no view resolved yet, the stored graph is already
     * replaced when the non-null assertion on the view fails.
     */
    method UpdateGraphData(ws: WorkspaceState, built: Graph) returns (outcome: Outcome)
      modifies this`prevGraphData, view
      ensures view != null ==> view.html == old(view.html)
      ensures CheckWorkspace(ws).Refused? ==>
        outcome == Rejected(CheckWorkspace(ws).error) && prevGraphData == old(prevGraphData) &&
        (view != null ==> view.posted == old(view.posted))
      ensures CheckWorkspace(ws) == Ready ==>
        var step := TickStep(old(prevGraphData), built);
        prevGraphData == step.stored &&
        (step.post.None? ==> outcome == Suppressed && (view != null ==> view.posted == old(view.posted))) &&
        (step.post.Some? && view == null ==> outcome == TargetMissing) &&
        (step.post.Some? && view != null ==> outcome == Posted && view.posted == old(view.posted) + [built])
    {
      var check := CheckWorkspace(ws);
      if check.Refused? {
        return Rejected(check.error);
      }
      if !NodesChanged(prevGraphData, built) {
        return Suppressed;
      }
      prevGraphData := Some(built);
      if view == null {
        return TargetMissing;
      }
      view.posted := view.posted + [built];
      outcome := Posted;
    }
  }
}
