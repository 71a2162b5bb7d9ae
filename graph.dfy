/**
 * The graph that the repository reader builds and the force-graph view draws:
 * nodes for commits and references, links for parent and pointer edges, and
 * the per-type display mapping used when a node is painted.
 */
module GraphModel {

  datatype Option<+T> = None | Some(value: T)

  /** The six node kinds, in the order of their numeric `type` code 0..5. */
  datatype NodeType = Commit | LocalBranch | Tag | Stash | RemoteBranch | Head

  /**
   * A node as the code reads it. The layout fields are owned by the force
   * engine: the model only ever copies them, so their values are opaque and
   * `None` stands for a field that is absent (undefined) on the node.
   */
  datatype Node = Node(
    id: string,
    kind: NodeType,
    hover: string,
    rtClk: string,
    x: Option<real>,
    y: Option<real>,
    vx: Option<real>,
    vy: Option<real>)

  /** A directed edge between two node ids. */
  datatype Link = Link(source: string, target: string)

  datatype Graph = Graph(nodes: seq<Node>, links: seq<Link>)

  /** How `nodePaint` draws a node. */
  datatype Shape = Circle | LabelledBox

  /** The numeric `type` code the builder stores for each kind. */
  function TypeCode(t: NodeType): (code: nat)
    ensures code < |Identifier|
    ensures t == Commit <==> code == 0
  {
    match t
    case Commit => 0
    case LocalBranch => 1
    case Tag => 2
    case Stash => 3
    case RemoteBranch => 4
    case Head => 5
  }

  /** Reads a numeric `type` code back; only 0..5 name a kind. */
  function KindOfCode(code: int): (r: Option<NodeType>)
    ensures r.Some? <==> 0 <= code < |Identifier|
    ensures r.Some? ==> TypeCode(r.value) == code
  {
    if code == 0 then Some(Commit)
    else if code == 1 then Some(LocalBranch)
    else if code == 2 then Some(Tag)
    else if code == 3 then Some(Stash)
    else if code == 4 then Some(RemoteBranch)
    else if code == 5 then Some(Head)
    else None
  }

  /** The letter table indexed by type code. */
  const Identifier: seq<string> := ["C", "LB", "T", "S", "RB", "H"]

  /** The letter shown for a node kind: the table entry at its type code. */
  function Letter(t: NodeType): (s: string)
    ensures s == Identifier[TypeCode(t)]
  {
    match t
    case Commit => "C"
    case LocalBranch => "LB"
    case Tag => "T"
    case Stash => "S"
    case RemoteBranch => "RB"
    case Head => "H"
  }

  /** The shape chosen by `type == 0 ? 0 : 1`. */
  function ShapeOf(t: NodeType): (s: Shape)
    ensures s == Circle <==> t == Commit
  {
    if TypeCode(t) == 0 then Circle else LabelledBox
  }

  /** The text written inside the drawn node: none for a circle, the letter for a box. */
  function DrawnText(t: NodeType): (r: Option<string>)
    ensures r.None? <==> t == Commit
    ensures r.Some? ==> r.value in Identifier && r.value == Letter(t)
  {
    match ShapeOf(t)
    case Circle => None
    case LabelledBox => Some(Identifier[TypeCode(t)])
  }

  /** Type codes and kinds are in one-to-one correspondence. */
  lemma CodeRoundTrip(t: NodeType)
    ensures KindOfCode(TypeCode(t)) == Some(t)
  {
  }

  /** Distinct kinds are told apart by their letters. */
  lemma LetterInjective(a: NodeType, b: NodeType)
    ensures Letter(a) == Letter(b) ==> a == b
  {
  }
}
