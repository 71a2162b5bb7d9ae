/**
 * The change test shared by the sidebar provider's update and the panel's
 * timer tick: a freshly built graph is posted unless a stored graph exists
 * whose node sequence serialises identically. Links take no part in it.
 */
module ChangeDetection {
  import opened GraphModel

  /**
   * Whether a freshly built graph counts as a change against the stored one.
   * Serialising two node sequences to the same JSON text is modelled as
   * equality of the node sequences (both come from the same builder).
   */
  predicate NodesChanged(previous: Option<Graph>, current: Graph)
    ensures previous.None? ==> NodesChanged(previous, current)
    ensures previous.Some? && |previous.value.nodes| != |current.nodes| ==> NodesChanged(previous, current)
    ensures previous.Some? && previous.value.nodes == current.nodes ==> !NodesChanged(previous, current)
    ensures previous.Some? && |previous.value.nodes| == |current.nodes| ==>
      forall i :: 0 <= i < |current.nodes| && previous.value.nodes[i] != current.nodes[i] ==>
        NodesChanged(previous, current)
  {
    !(previous.Some? && previous.value.nodes == current.nodes)
  }

  /** The effect of one tick: what is stored afterwards and what, if anything, is posted. */
  datatype Step = Step(stored: Option<Graph>, post: Option<Graph>)

  /** One tick of change detection: an accepted graph replaces the stored one wholesale and is posted. */
  function TickStep(previous: Option<Graph>, built: Graph): (s: Step)
    ensures s.post.None? <==> previous.Some? && previous.value.nodes == built.nodes
    ensures s.post.Some? ==> s.post.value == built && s.stored == Some(built)
    ensures s.post.None? ==> s.stored == previous
    ensures previous.None? ==> s == Step(Some(built), Some(built))
  {
    if NodesChanged(previous, built) then Step(Some(built), Some(built)) else Step(previous, None)
  }

  /** Two builds with the same nodes get the same verdict, whatever their links. */
  lemma LinksNeverCompared(previous: Option<Graph>, a: Graph, b: Graph)
    requires a.nodes == b.nodes
    ensures TickStep(previous, a).post.None? == TickStep(previous, b).post.None?
  {
  }

  /** Right after a graph is stored, a build with the same nodes is suppressed. */
  lemma BaselineSuppresses(stored: Graph, built: Graph)
    requires stored.nodes == built.nodes
    ensures TickStep(Some(stored), built) == Step(Some(stored), None)
  {
  }

  /** Ticking twice on the same build posts at most once. */
  lemma TickIdempotent(previous: Option<Graph>, built: Graph)
    ensures TickStep(TickStep(previous, built).stored, built).post == None
  {
  }

  /** The stored graph and the posts after a run of ticks over successive builds. */
  datatype Trace = Trace(stored: Option<Graph>, posts: seq<Graph>)

  function Run(previous: Option<Graph>, builds: seq<Graph>): (t: Trace)
    ensures builds == [] ==> t == Trace(previous, [])
    ensures previous.None? && builds != [] ==> t.posts != [] && t.posts[0] == builds[0]
    decreases |builds|
  {
    if builds == [] then Trace(previous, [])
    else
      var s := TickStep(previous, builds[0]);
      var rest := Run(s.stored, builds[1..]);
      Trace(rest.stored, (if s.post.Some? then [s.post.value] else []) + rest.posts)
  }

  /** The stored graph is always the last graph posted, or the initial one when nothing was posted. */
  lemma {:induction false} RunStoresLastPost(previous: Option<Graph>, builds: seq<Graph>)
    ensures var t := Run(previous, builds);
      t.stored == if t.posts == [] then previous else Some(t.posts[|t.posts| - 1])
    decreases |builds|
  {
    if builds != [] {
      var s := TickStep(previous, builds[0]);
      RunStoresLastPost(s.stored, builds[1..]);
    }
  }

  /** After any non-empty run the stored graph has exactly the nodes of the latest build. */
  lemma {:induction false} RunTracksLatestNodes(previous: Option<Graph>, builds: seq<Graph>)
    requires builds != []
    ensures var t := Run(previous, builds);
      t.stored.Some? && t.stored.value.nodes == builds[|builds| - 1].nodes
    decreases |builds|
  {
    var s := TickStep(previous, builds[0]);
    if |builds| > 1 {
      RunTracksLatestNodes(s.stored, builds[1..]);
    }
  }

  /** Every post is one of the builds, and there are no more posts than ticks. */
  lemma {:induction false} RunPostsAreBuilds(previous: Option<Graph>, builds: seq<Graph>)
    ensures var t := Run(previous, builds);
      |t.posts| <= |builds| && forall p :: p in t.posts ==> p in builds
    decreases |builds|
  {
    if builds != [] {
      var s := TickStep(previous, builds[0]);
      RunPostsAreBuilds(s.stored, builds[1..]);
      var rest := Run(s.stored, builds[1..]);
      forall p | p in rest.posts ensures p in builds {
        assert p in builds[1..];
      }
    }
  }

  /**
   * No post repeats the nodes of the one before it, and the first post differs
   * in its nodes from the graph stored before the run.
   */
  lemma {:induction false} RunPostsOnlyChanges(previous: Option<Graph>, builds: seq<Graph>)
    ensures var t := Run(previous, builds);
      (t.posts != [] && previous.Some? ==> t.posts[0].nodes != previous.value.nodes) &&
      forall k :: 0 < k < |t.posts| ==> t.posts[k].nodes != t.posts[k - 1].nodes
    decreases |builds|
  {
    if builds != [] {
      var s := TickStep(previous, builds[0]);
      var rest := Run(s.stored, builds[1..]);
      RunPostsOnlyChanges(s.stored, builds[1..]);
      if s.post.Some? && rest.posts != [] {
        var t := Run(previous, builds);
        assert t.posts == [builds[0]] + rest.posts;
        assert rest.posts[0].nodes != builds[0].nodes;
        forall k | 0 < k < |t.posts| ensures t.posts[k].nodes != t.posts[k - 1].nodes {
          if k > 1 {
            assert t.posts[k] == rest.posts[k - 1] && t.posts[k - 1] == rest.posts[k - 2];
          }
        }
      }
    }
  }
}
