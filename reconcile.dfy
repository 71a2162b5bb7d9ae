/**
 * Layout reconciliation in the webview's message handler: every incoming node
 * takes the position and velocity of the first node, in the graph currently
 * drawn, that has the same id; everything else about the incoming graph stays.
 */
module Reconcile {
  import opened GraphModel

  /** The four layout fields of `a` and `b` are equal. */
  predicate SameLayout(a: Node, b: Node) {
    a.x == b.x && a.y == b.y && a.vx == b.vx && a.vy == b.vy
  }

  /** `a` and `b` agree on every field that is not layout. */
  predicate SameIdentity(a: Node, b: Node) {
    a.id == b.id && a.kind == b.kind && a.hover == b.hover && a.rtClk == b.rtClk
  }

  /** Some node of `olds` carries `id`. */
  predicate HasId(olds: seq<Node>, id: string) {
    exists m :: 0 <= m < |olds| && olds[m].id == id
  }

  /** `j` is the index of the first node of `olds` carrying `id`. */
  predicate IsFirstMatch(olds: seq<Node>, id: string, j: int) {
    0 <= j < |olds| && olds[j].id == id && forall m :: 0 <= m < j ==> olds[m].id != id
  }

  /** The index the inner scan stops at, if it stops. */
  function FirstMatch(id: string, olds: seq<Node>): (r: Option<nat>)
    ensures r.Some? ==> IsFirstMatch(olds, id, r.value)
    ensures r.None? <==> !HasId(olds, id)
  {
    if olds == [] then None
    else if olds[0].id == id then Some(0)
    else
      match FirstMatch(id, olds[1..])
      case None =>
        assert forall m :: 1 <= m < |olds| ==> olds[m] == olds[1..][m - 1];
        None
      case Some(j) =>
        assert forall m :: 1 <= m < j + 1 ==> olds[m] == olds[1..][m - 1];
        Some(j + 1)
  }

  /** The first match is the only index that can be one. */
  lemma FirstMatchUnique(olds: seq<Node>, id: string, i: int, j: int)
    requires IsFirstMatch(olds, id, i) && IsFirstMatch(olds, id, j)
    ensures i == j
  {
  }

  /** One incoming node after the scan: layout copied from the first old node with its id, if any. */
  function CarryLayout(n: Node, olds: seq<Node>): (r: Node)
    ensures SameIdentity(r, n)
    ensures !HasId(olds, n.id) ==> r == n
    ensures forall j :: IsFirstMatch(olds, n.id, j) ==> SameLayout(r, olds[j])
  {
    match FirstMatch(n.id, olds)
    case None => n
    case Some(j) =>
      var o := olds[j];
      n.(x := o.x, y := o.y, vx := o.vx, vy := o.vy)
  }

  /** The incoming node sequence after the whole handler loop. */
  function Reconciled(incoming: seq<Node>, olds: seq<Node>): (r: seq<Node>)
    ensures |r| == |incoming|
    ensures forall i :: 0 <= i < |r| ==> SameIdentity(r[i], incoming[i])
    ensures forall i :: 0 <= i < |r| && !HasId(olds, incoming[i].id) ==> r[i] == incoming[i]
    ensures forall i, j :: 0 <= i < |r| && IsFirstMatch(olds, incoming[i].id, j) ==> SameLayout(r[i], olds[j])
  {
    seq(|incoming|, i requires 0 <= i < |incoming| => CarryLayout(incoming[i], olds))
  }

  /**
   * The nested scan of the message handler, in place on the incoming nodes:
   * for each new node, look for the first old node with the same id, copy its
   * four layout fields and stop looking.
   */
  method ReconcileLayout(nodes: array<Node>, olds: seq<Node>)
    modifies nodes
    ensures nodes[..] == Reconciled(old(nodes[..]), olds)
  {
    for i := 0 to nodes.Length
      invariant forall k :: 0 <= k < i ==> nodes[k] == CarryLayout(old(nodes[k]), olds)
      invariant forall k :: i <= k < nodes.Length ==> nodes[k] == old(nodes[k])
    {
      ghost var before := nodes[..];
      for j := 0 to |olds|
        invariant forall m :: 0 <= m < j ==> olds[m].id != nodes[i].id
        invariant nodes[..] == before
      {
        if nodes[i].id == olds[j].id {
          assert IsFirstMatch(olds, nodes[i].id, j);
          nodes[i] := nodes[i].(x := olds[j].x, y := olds[j].y, vx := olds[j].vx, vy := olds[j].vy);
          break;
        }
      }
    }
  }

  /** Reconciling twice against the same drawn graph changes nothing more. */
  lemma ReconcileIdempotent(incoming: seq<Node>, olds: seq<Node>)
    ensures Reconciled(Reconciled(incoming, olds), olds) == Reconciled(incoming, olds)
  {
    var once := Reconciled(incoming, olds);
    var twice := Reconciled(once, olds);
    forall i | 0 <= i < |incoming| ensures twice[i] == once[i] {
      assert once[i].id == incoming[i].id;
      match FirstMatch(incoming[i].id, olds)
      case None =>
      case Some(j) =>
        assert SameLayout(once[i], olds[j]) && SameLayout(twice[i], olds[j]);
    }
  }

  /** Node ids are pairwise distinct. */
  predicate UniqueIds(ns: seq<Node>) {
    forall a, b :: 0 <= a < b < |ns| ==> ns[a].id != ns[b].id
  }

  /** With unique ids, any node carrying `id` is the first match, so a lookup by id agrees with the scan. */
  lemma MatchIsFirstWhenUnique(olds: seq<Node>, id: string, j: int)
    requires UniqueIds(olds)
    requires 0 <= j < |olds| && olds[j].id == id
    ensures FirstMatch(id, olds) == Some(j)
  {
    assert IsFirstMatch(olds, id, j);
  }

  /** Redrawing the graph already on screen keeps every node exactly where it was. */
  lemma ReconcileWithSelf(ns: seq<Node>)
    requires UniqueIds(ns)
    ensures Reconciled(ns, ns) == ns
  {
    var r := Reconciled(ns, ns);
    forall i | 0 <= i < |ns| ensures r[i] == ns[i] {
      MatchIsFirstWhenUnique(ns, ns[i].id, i);
    }
  }

  /** The graph the webview script hands to the force engine. */
  class GraphView {
    var data: Graph

    constructor (initial: Graph)
      ensures data == initial
    {
      data := initial;
    }

    /** A posted graph arrives: carry layout forward from what is drawn, then draw the new graph. */
    method OnMessage(event: Graph)
      modifies this
      ensures data.links == event.links
      ensures data.nodes == Reconciled(event.nodes, old(data.nodes))
    {
      var nodes := new Node[|event.nodes|](i requires 0 <= i < |event.nodes| => event.nodes[i]);
      ReconcileLayout(nodes, data.nodes);
      data := Graph(nodes[..], event.links);
    }
  }
}
