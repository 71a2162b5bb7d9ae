# Git Visualizer: change detection, layout carry-over and node display

This project models the logic inside the Git Visualizer editor extension. The
extension draws a repository's commits and references as a force-directed
graph in two places:

- a sidebar view, driven by `GitVisualizerProvider`;
- an editor panel, opened by the `git-visualizer.visualize` command.

A timer tick refreshes both every two seconds. The model covers three pieces
of logic:

- **Change detection.** Each front end stores the graph it last showed. A
  freshly built graph is posted only when no graph is stored or the new node
  sequence differs from the stored one. Links are never compared. An accepted
  graph replaces the stored one wholesale. The `visualize` command and the
  sidebar's view resolution set that baseline unconditionally, once their
  workspace guards pass and the commit log object is new. (`ChangeDetection`,
  `Provider`, `Extension`, `Workspace`, `Host`)
- **Layout reconciliation.** The webview script gets a posted graph. For each
  incoming node it scans the drawn nodes for the first one with the same `id`
  and copies `x`, `y`, `vx` and `vy` from it. Nothing else is touched. This is
  modelled as the same nested loop, run in place on an `array<Node>` and proved
  against a first-match specification. (`Reconcile`)
- **Node display.** Type codes 0..5 are the six node kinds. They map to the
  letters `C`, `LB`, `T`, `S`, `RB` and `H`. A commit is drawn as a circle and
  every other kind as a box labelled with its letter. (`GraphModel`)

Graph building and commit reading happen in the repository reader. Here they
are inputs to the methods. The editor's objects are reduced to what the logic
observes:

- a `Webview` holds the graph embedded in its page and the list of graphs
  posted to it;
- a `CommitLog` is compared only by object identity;
- a `WorkspaceState` holds the folder count and whether `.git` was found.

## Notes on the source

- The code serialises whole node objects, so layout fields on a stored node
  take part in the comparison; `NodesChanged` compares whole `Node` values.
- The scan keeps first-match semantics; `Reconcile.MatchIsFirstWhenUnique`
  shows that a lookup by id agrees with it when the drawn ids are unique.
- An empty (not undefined) workspace folder list passes both count guards.
  Reading the first folder's uri then fails inside the `try` that wraps the
  `stat`, so the case is reported as "not a git repository". `CheckWorkspace`
  models this.

## Model

| member | source | states |
|---|---|---|
| GraphModel.TypeCode | src/extension.ts:216-217 | every kind has a code inside the six-entry letter table, and code 0 belongs to commits and no other kind |
| GraphModel.KindOfCode | src/provider.ts:210-211 | exactly the codes 0..5 name a kind, and the kind read back has that code |
| GraphModel.Letter | src/extension.ts:217 | a kind's letter is the table entry at its type code |
| GraphModel.ShapeOf | src/extension.ts:220-223 | a node is drawn as a circle if and only if it is a commit; every other kind is a labelled box |
| GraphModel.DrawnText | src/provider.ts:214-217 | a circle carries no text; a box carries its kind's letter from the table |
| GraphModel.CodeRoundTrip | src/extension.ts:216-217 | reading back a kind's code gives the same kind |
| GraphModel.LetterInjective | src/extension.ts:217 | two kinds with the same letter are the same kind |
| ChangeDetection.NodesChanged | src/provider.ts:274 | with nothing stored the build is a change; with a stored graph, a different node count or any differing node is a change, and equal node sequences are not |
| ChangeDetection.TickStep | src/provider.ts:274-282 | nothing is posted exactly when a stored graph has the same nodes, and then the stored graph stays; otherwise the build is both stored and posted; with nothing stored the build is always accepted |
| ChangeDetection.LinksNeverCompared | src/extension.ts:285 | two builds with equal nodes and any links get the same verdict |
| ChangeDetection.BaselineSuppresses | src/provider.ts:274-276 | after a graph is stored, a build with the same nodes posts nothing and leaves the stored graph |
| ChangeDetection.TickIdempotent | src/extension.ts:285-289 | a second tick on the same build posts nothing |
| ChangeDetection.Run | src/extension.ts:251-294 | successive ticks fold `TickStep` over the builds; with nothing stored, the first build of a non-empty run is always the first post |
| ChangeDetection.RunStoresLastPost | src/extension.ts:283-293 | over any run of ticks, the stored graph is the last graph posted, or the initial one if nothing was posted |
| ChangeDetection.RunTracksLatestNodes | src/provider.ts:272-278 | after a non-empty run of ticks, a graph is stored and its nodes are those of the latest build |
| ChangeDetection.RunPostsAreBuilds | src/provider.ts:272-282 | every posted graph is one of the builds, and there are never more posts than ticks |
| ChangeDetection.RunPostsOnlyChanges | src/extension.ts:285-293 | no posted graph repeats the nodes of the previous post, and the first post differs in nodes from the graph stored before the run |
| Reconcile.FirstMatch | src/provider.ts:193-200 | the scan stops at an index whose node has the id and no earlier node has it, and it finds nothing exactly when no node has the id |
| Reconcile.FirstMatchUnique | src/extension.ts:199-205 | at most one index is the first match for an id |
| Reconcile.CarryLayout | src/provider.ts:194-199 | a node keeps its id, type, hover and clipboard text, takes the four layout fields of the first old node with its id, and is unchanged when none has it |
| Reconcile.Reconciled | src/provider.ts:192-202 | the node count and order are kept; every node keeps its id, type, hover and clipboard text; a node whose id is not drawn is unchanged; a node with a drawn id has the layout of the first drawn node with that id |
| Reconcile.ReconcileLayout | src/extension.ts:198-208 | the nested loop with `break`, run in place on the incoming nodes, leaves exactly the reconciled sequence |
| Reconcile.ReconcileIdempotent | src/provider.ts:192-204 | reconciling again against the same drawn graph changes nothing more |
| Reconcile.MatchIsFirstWhenUnique | src/extension.ts:199-205 | when drawn ids are unique, any drawn node with the id is the one the scan finds, so a lookup by id gives the same result |
| Reconcile.ReconcileWithSelf | src/extension.ts:195-210 | posting the graph already drawn, with unique ids, leaves every node where it was |
| Reconcile.GraphView.constructor | src/extension.ts:190 | the script starts out drawing the graph embedded in the page |
| Reconcile.GraphView.OnMessage | src/provider.ts:187-206 | the drawn graph becomes the posted graph's links with its nodes reconciled against the previously drawn nodes |
| Workspace.CheckWorkspace | src/provider.ts:246-268 | the guards pass exactly when one folder is open and `.git` is found; an undefined folder list, several folders, an empty list and a missing `.git` give their own refusals |
| Workspace.Message | src/provider.ts:43-61 | the two folder-count refusals, and only they, ask the user to open exactly one workspace |
| Workspace.MessagesDistinct | src/extension.ts:34-56 | each refusal is reported with its own message text |
| Host.Webview.Blank | src/provider.ts:22-27 | a webview handed over by the editor starts with no page and no posted graphs |
| Host.Webview.WithPage | src/extension.ts:79-116 | a created panel's page embeds the graph and nothing has been posted to it |
| Provider.GitVisualizerProvider.constructor | src/provider.ts:14-20 | a new provider has no view, no commit log and no stored graph |
| Provider.GitVisualizerProvider.ResolveWebviewView | src/provider.ts:22-110 | the view is always remembered; a refused guard or the same commit log object changes nothing else; otherwise the log is recorded and the build becomes both the stored baseline and the graph in the page |
| Provider.GitVisualizerProvider.UpdateGraphData | src/provider.ts:243-283 | a refused guard changes nothing; otherwise the stored graph and the posts follow `TickStep`; with no view the stored graph is replaced and the non-null assertion fails |
| Extension.ExtensionState.Activate | src/extension.ts:14-21 | activation creates a fresh provider and starts with no panel, no stored graph and no commit log |
| Extension.ExtensionState.ResolveSidebar | src/extension.ts:15-17 | the editor resolving the registered provider's view has the effects of `ResolveWebviewView` and keeps the panel and the view distinct |
| Extension.ExtensionState.Visualize | src/extension.ts:28-116 | a refused guard or the same commit log object changes nothing; otherwise the log is recorded, the stored graph is replaced, and the build is posted to the open panel or a fresh panel embedding it is created, never a second one |
| Extension.ExtensionState.DisposePanel | src/extension.ts:118-121 | disposing the panel leaves no current panel |
| Extension.ExtensionState.Tick | src/extension.ts:251-294 | the provider's update runs first, and its failure ends the tick with the panel state untouched; then the guards and `TickStep` decide on the panel's stored graph, which is replaced before a missing panel fails the non-null assertion |
| Scenarios.BaselineSuppressesUpdate | src/provider.ts:81 | after the view is resolved with a build, an update whose build has the same nodes is suppressed and posts nothing |
| Scenarios.TicksWithoutTargets | src/extension.ts:251-293 | with neither view nor panel, the first tick aborts in the provider, the second fails at the panel, and the third is suppressed |
| Scenarios.ReopenAfterDispose | src/extension.ts:65-79 | after the panel is disposed, the command with the same commit log object opens no panel; with a new log object it opens a fresh one |

## Left out

- Graph building and commit reading (`get_git_graph` and `get_commits` in `./helper_functions`) are inputs to the methods. `./helper_functions` is not part of this model.
- Editor API calls are reduced to their outcomes:
  - `workspace.fs.stat` becomes a boolean in `WorkspaceState`;
  - `showInformationMessage` becomes the `Rejected` outcome, with its text given by `Workspace.Message`;
  - `createWebviewPanel` becomes a fresh `Webview`;
  - `postMessage` becomes appending to `Webview.posted`.
- `asWebviewUri`, the webview options and the HTML and CSS text of the page are not modelled. Only the graph embedded in the page is kept.
- The `setInterval` timer, its disposal and async/await scheduling are left out. Each tick and command runs to completion before the next starts.
- Extension.ExtensionState.Tick: both workspace guard evaluations in one tick read the same `WorkspaceState`. The source reads the editor state twice, and it could change in between.
- Reconcile.GraphView.OnMessage: the force engine moves nodes between messages. The model changes the drawn graph only on messages, so the drawn layout values are arbitrary inputs. The engine's rewriting of link endpoints into node objects is not modelled either.
- The floating-point meaning of `x`, `y`, `vx` and `vy` is left out. They are `Option<real>` values that are only ever copied, and `None` stands for an absent field.
- Node kinds are a closed datatype. A numeric `type` outside 0..5 (`KindOfCode` gives `None`) would index past the letter table in the source. No node in the model can carry such a code.
- Painting is left out: colours, circle and box geometry, fonts, resize detection, `zoomToFit`, copying `rt_clk` to the clipboard on right click, and the goal button's label toggle.
- `JSON.stringify` key order is not modelled. Node comparison is structural equality of `Node` values.
- Goal-graph capture, completion checking and the initial vertical fan-out of a first graph do not appear in these files. They are not part of this model.
- A rejected promise's effect on the editor (an unhandled error in the log) is not modelled. Only the fact that the rest of the tick does not run is kept.
- The `console.log("updated")` at the start of the provider's update is left out: logging has no effect on the model's state.
