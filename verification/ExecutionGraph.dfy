/** The execution graph of an investigation: nodes by id, edges, and who is whose parent and child. */
module ExecutionGraphs {
  import opened Base

  datatype Kind =
    | Investigation | Classification | Playbook | ToolCall | LlmInference
    | Hypothesis | MemoryQuery | Decision | Control | Rca

  datatype NodeId =
    | InvestigationId(prefix: string)
    | SeqId(kind: Kind, number: int)
    | ToolId(number: int, worker: string)
    | GapId(number: int)

  datatype Node = Node(id: NodeId, kind: Kind, sequenceNum: int, parents: seq<NodeId>, children: seq<NodeId>)

  datatype Edge = Edge(source: NodeId, target: NodeId)

  datatype Graph = Graph(nodes: seq<Node>, edges: seq<Edge>)

  /** The position of the first node with the id, or the number of nodes if there is none. */
  function Index(nodes: seq<Node>, id: NodeId): (i: nat)
    ensures i <= |nodes| && (i < |nodes| ==> nodes[i].id == id)
    ensures forall j :: 0 <= j < i ==> nodes[j].id != id
  {
    if |nodes| == 0 || nodes[0].id == id then 0 else 1 + Index(nodes[1..], id)
  }

  predicate Has(g: Graph, id: NodeId) {
    Index(g.nodes, id) < |g.nodes|
  }

  function GetNode(g: Graph, id: NodeId): Option<Node> {
    if Has(g, id) then Some(g.nodes[Index(g.nodes, id)]) else None
  }

  function AddNode(g: Graph, n: Node): Graph {
    if Has(g, n.id) then g else g.(nodes := g.nodes + [n])
  }

  function Added(ids: seq<NodeId>, id: NodeId): seq<NodeId> {
    if id in ids then ids else ids + [id]
  }

  function WithChild(nodes: seq<Node>, s: NodeId, t: NodeId): (r: seq<Node>) {
    var i := Index(nodes, s);
    if i == |nodes| then nodes else nodes[i := nodes[i].(children := Added(nodes[i].children, t))]
  }

  function WithParent(nodes: seq<Node>, s: NodeId, t: NodeId): (r: seq<Node>) {
    var i := Index(nodes, t);
    if i == |nodes| then nodes else nodes[i := nodes[i].(parents := Added(nodes[i].parents, s))]
  }

  function AddEdge(g: Graph, e: Edge): Graph {
    if e in g.edges then g
    else Graph(WithParent(WithChild(g.nodes, e.source, e.target), e.source, e.target), g.edges + [e])
  }

  /** Nodes without a parent, in order. */
  function RootsIn(nodes: seq<Node>): (r: seq<NodeId>)
    ensures forall id <- r :: exists n <- nodes :: n.id == id && n.parents == []
    ensures forall n <- nodes :: n.parents == [] ==> n.id in r
  {
    if |nodes| == 0 then []
    else
      var before, n := RootsIn(nodes[..|nodes| - 1]), nodes[|nodes| - 1];
      assert nodes == nodes[..|nodes| - 1] + [n];
      if n.parents == [] then before + [n.id] else before
  }

  // ---- Graphs whose nodes stand in sequence order ----

  /** Nodes stand in the order of their sequence numbers, which their ids carry. */
  ghost predicate InSequence(nodes: seq<Node>) {
    && (forall i, j :: 0 <= i < j < |nodes| ==> nodes[i].sequenceNum < nodes[j].sequenceNum && nodes[i].id != nodes[j].id)
    && (forall n <- nodes :: NumberedBy(n))
  }

  predicate NumberedBy(n: Node) {
    match n.id
    case InvestigationId(_) => true
    case SeqId(_, k) => n.sequenceNum == k
    case ToolId(k, _) => n.sequenceNum == k
    case GapId(k) => n.sequenceNum == k
  }

  /** Every edge leads from a node to one further down the list. */
  ghost predicate Forward(g: Graph) {
    forall e <- g.edges :: Index(g.nodes, e.source) < Index(g.nodes, e.target) < |g.nodes|
  }

  /** The parents and children listed at the nodes are the edges. */
  ghost predicate Mirrored(g: Graph) {
    forall i :: 0 <= i < |g.nodes| ==> NodeMirrored(g.nodes[i], g.edges)
  }

  ghost predicate NodeMirrored(n: Node, edges: seq<Edge>) {
    && (forall t :: t in n.children <==> Edge(n.id, t) in edges)
    && (forall s :: s in n.parents <==> Edge(s, n.id) in edges)
  }

  ghost predicate Ordered(g: Graph) {
    InSequence(g.nodes) && Forward(g) && Mirrored(g)
  }

  ghost predicate SameNodes(a: seq<Node>, b: seq<Node>) {
    |a| == |b| && forall i :: 0 <= i < |a| ==>
      a[i].id == b[i].id && a[i].kind == b[i].kind && a[i].sequenceNum == b[i].sequenceNum
  }

  lemma {:induction false} SameIndex(a: seq<Node>, b: seq<Node>, id: NodeId)
    requires SameNodes(a, b)
    ensures Index(a, id) == Index(b, id)
    decreases |a|
  {
    if |a| > 0 && a[0].id != id {
      SameIndex(a[1..], b[1..], id);
    }
  }

  lemma {:induction false} IndexAppend(nodes: seq<Node>, n: Node, id: NodeId)
    ensures Index(nodes + [n], id) == if Index(nodes, id) < |nodes| then Index(nodes, id) else if n.id == id then |nodes| else |nodes| + 1
  {
    if |nodes| > 0 && nodes[0].id != id {
      assert (nodes + [n])[1..] == nodes[1..] + [n];
      IndexAppend(nodes[1..], n, id);
    } else if |nodes| == 0 {
      assert (nodes + [n])[1..] == [];
    }
  }

  lemma AddEdgeSameNodes(g: Graph, e: Edge)
    ensures SameNodes(AddEdge(g, e).nodes, g.nodes)
  {
  }

  lemma UniqueIndex(nodes: seq<Node>, i: nat)
    requires InSequence(nodes) && i < |nodes|
    ensures Index(nodes, nodes[i].id) == i
  {
  }

  lemma AddEdgeForward(g: Graph, e: Edge)
    requires Forward(g) && Index(g.nodes, e.source) < Index(g.nodes, e.target) < |g.nodes|
    ensures Forward(AddEdge(g, e))
  {
    hide Index;
    var r := AddEdge(g, e);
    AddEdgeSameNodes(g, e);
    forall f <- r.edges ensures Index(r.nodes, f.source) < Index(r.nodes, f.target) < |r.nodes| {
      SameIndex(r.nodes, g.nodes, f.source);
      SameIndex(r.nodes, g.nodes, f.target);
    }
  }

  lemma AddEdgeNode(g: Graph, e: Edge, i: nat)
    requires InSequence(g.nodes) && i < |g.nodes| && e !in g.edges && e.source != e.target
    ensures var n, m := g.nodes[i], AddEdge(g, e).nodes;
            |m| == |g.nodes|
            && m[i].id == n.id
            && m[i].children == (if n.id == e.source then Added(n.children, e.target) else n.children)
            && m[i].parents == (if n.id == e.target then Added(n.parents, e.source) else n.parents)
  {
    UniqueIndex(g.nodes, i);
    var mid := WithChild(g.nodes, e.source, e.target);
    SameIndex(g.nodes, mid, e.target);
  }

  lemma AddEdgeMirrored(g: Graph, e: Edge)
    requires InSequence(g.nodes) && Mirrored(g) && e.source != e.target
    ensures Mirrored(AddEdge(g, e))
  {
    hide AddEdge, InSequence;
    if e in g.edges {
      AddEdgeAgain(g, e);
    } else {
      var r := AddEdge(g, e);
      AddEdgeEdges(g, e);
      AddEdgeSameNodes(g, e);
      forall i | 0 <= i < |r.nodes| ensures NodeMirrored(r.nodes[i], r.edges) {
        AddEdgeNode(g, e, i);
        MirroredNext(g.nodes[i], r.nodes[i], g.edges, e);
      }
    }
  }

  lemma AddEdgeAgain(g: Graph, e: Edge)
    requires e in g.edges
    ensures AddEdge(g, e) == g
  {
  }

  lemma AddEdgeEdges(g: Graph, e: Edge)
    requires e !in g.edges
    ensures AddEdge(g, e).edges == g.edges + [e]
  {
  }

  lemma MirroredNext(n: Node, m: Node, edges: seq<Edge>, e: Edge)
    requires NodeMirrored(n, edges) && m.id == n.id
    requires m.children == (if n.id == e.source then Added(n.children, e.target) else n.children)
    requires m.parents == (if n.id == e.target then Added(n.parents, e.source) else n.parents)
    ensures NodeMirrored(m, edges + [e])
  {
  }

  lemma AddEdgeOrdered(g: Graph, e: Edge)
    requires Ordered(g) && Index(g.nodes, e.source) < Index(g.nodes, e.target) < |g.nodes|
    ensures Ordered(AddEdge(g, e))
  {
    AddEdgeForward(g, e);
    AddEdgeMirrored(g, e);
    AddEdgeSameNodes(g, e);
    hide AddEdge, Index, Forward, Mirrored;
    SameInSequence(g.nodes, AddEdge(g, e).nodes);
  }

  lemma SameInSequence(a: seq<Node>, b: seq<Node>)
    requires InSequence(a) && SameNodes(b, a)
    ensures InSequence(b)
  {
    forall n <- b ensures NumberedBy(n) {
      var i :| 0 <= i < |b| && b[i] == n;
      assert NumberedBy(a[i]);
    }
  }

  /** A node with a number above all others goes to the end. */
  lemma AddNodeOrdered(g: Graph, n: Node)
    requires Ordered(g) && NumberedBy(n) && n.children == [] && n.parents == []
    requires forall m <- g.nodes :: m.sequenceNum < n.sequenceNum
    requires !Has(g, n.id)
    ensures Ordered(AddNode(g, n))
  {
    var r := AddNode(g, n);
    forall e <- g.edges ensures Index(r.nodes, e.source) < Index(r.nodes, e.target) < |r.nodes| {
      IndexAppend(g.nodes, n, e.source);
      IndexAppend(g.nodes, n, e.target);
    }
    assert Edge(n.id, n.id) !in g.edges;
    forall e <- g.edges ensures e.source != n.id && e.target != n.id {
    }
  }
}
