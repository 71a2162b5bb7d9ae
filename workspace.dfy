/**
 * The guard every entry point runs before touching the repository: exactly one
 * workspace folder must be open and it must contain a `.git` entry.
 */
module Workspace {
  import opened GraphModel

  datatype WorkspaceError = NoWorkspace | MultipleWorkspaces | NotAGitRepository

  /**
   * What the editor reports: `folders` is the number of open workspace
   * folders, `None` when the folder list is undefined; `gitDirFound` is the
   * outcome of the `stat` of `.git` under the first folder.
   */
  datatype WorkspaceState = WorkspaceState(folders: Option<nat>, gitDirFound: bool)

  datatype Check = Ready | Refused(error: WorkspaceError)

  /**
   * The three guards in order. With an empty folder list both count tests
   * pass, and reading the first folder's uri fails inside the `try` that
   * wraps the `stat`, so that case is reported as a missing repository.
   */
  function CheckWorkspace(ws: WorkspaceState): (c: Check)
    ensures c == Ready <==> ws.folders == Some(1) && ws.gitDirFound
    ensures ws.folders == None ==> c == Refused(NoWorkspace)
    ensures ws.folders.Some? && ws.folders.value > 1 ==> c == Refused(MultipleWorkspaces)
    ensures ws.folders == Some(0) ==> c == Refused(NotAGitRepository)
    ensures ws.folders == Some(1) && !ws.gitDirFound ==> c == Refused(NotAGitRepository)
  {
    match ws.folders
    case None => Refused(NoWorkspace)
    case Some(n) =>
      if n > 1 then Refused(MultipleWorkspaces)
      else if n == 0 || !ws.gitDirFound then Refused(NotAGitRepository)
      else Ready
  }

  /** The information message shown for each refusal. */
  function Message(e: WorkspaceError): (m: string)
    ensures var hint := "Please open only 1 workspace.";
      (e == NoWorkspace || e == MultipleWorkspaces) <==> (|m| >= |hint| && m[|m| - |hint|..] == hint)
  {
    match e
    case NoWorkspace => "No workspace opened! Please open only 1 workspace."
    case MultipleWorkspaces => "More than 1 workspace opened! Please open only 1 workspace."
    case NotAGitRepository => "Workspace is not a git repository! Please run 'git init' in the terminal."
  }

  /** Each refusal is reported with its own text. */
  lemma MessagesDistinct(a: WorkspaceError, b: WorkspaceError)
    ensures Message(a) == Message(b) ==> a == b
  {
  }
}
