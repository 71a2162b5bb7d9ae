/**
 * The editor-side objects the two front ends talk to, reduced to what the
 * core observes of them.
 */
module Host {
  import opened GraphModel
  import opened Workspace

  /**
   * A webview, either the sidebar view's or an editor panel's: the graph
   * embedded in its page when the page was set, and every graph posted to it
   * since.
   */
  class Webview {
    var html: Option<Graph>
    var posted: seq<Graph>

    /** A webview the editor has created but whose page has not been set. */
    constructor Blank()
      ensures html == None && posted == []
    {
      html := None;
      posted := [];
    }

    /** A webview whose page embeds `page`. */
    constructor WithPage(page: Graph)
      ensures html == Some(page) && posted == []
    {
      html := Some(page);
      posted := [];
    }
  }

  /**
   * The commit log object returned by the repository reader. It is compared
   * only by object identity, so it carries no fields here.
   */
  class CommitLog {
    constructor ()
    {
    }
  }

  /** How one invocation of a command, view resolution or tick ended. */
  datatype Outcome =
    | Rejected(error: WorkspaceError)  // a workspace guard failed; an information message is shown
    | CommitsUnchanged                  // the commit log is the very object seen last time
    | Suppressed                        // the new nodes equal the stored ones; nothing posted
    | Rendered                          // a page embedding the graph was set
    | Posted                            // the graph was posted to the webview
    | TargetMissing                     // state was updated, then the non-null assertion on the target failed
    | Aborted                           // the awaited provider update threw, so nothing after it ran
}
