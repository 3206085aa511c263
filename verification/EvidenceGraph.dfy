/**
 The evidence graph of one investigation: nodes and edges by id, and for every node the ids of the
 edges that leave it and of those that enter it.
 */
module EvidenceGraphs {
  import opened Base
  import opened Dicts
  import opened Rounding

  datatype Node = Node(nodeId: string, details: string, confidence: real)

  datatype Edge = Edge(edgeId: string, src: string, dst: string, relationship: string, weight: real, details: string)

  datatype Header = Header(investigationId: string, incidentId: string, service: string, incidentType: string,
                           phase: string, schemaVersion: string, createdAt: string)

  datatype Graph = Graph(header: Header, nodes: Dict<string, Node>, edges: Dict<string, Edge>,
                         outEdges: map<string, seq<string>>, inEdges: map<string, seq<string>>)

  /** The serialised form. */
  datatype Document = Document(header: Header, nodes: seq<Node>, edges: seq<Edge>)

  type Relationship = Option<string>

  // ---- Building ----

  function NewGraph(header: Header): Graph {
    Graph(header, Empty(), Empty(), map[], map[])
  }

  /** `d.setdefault(k, [])[...]`. */
  function At(lists: map<string, seq<string>>, k: string): seq<string> {
    if k in lists then lists[k] else []
  }

  function AddNodeTo(g: Graph, n: Node): Graph {
    g.(nodes := Set(g.nodes, n.nodeId, n),
       outEdges := g.outEdges[n.nodeId := At(g.outEdges, n.nodeId)],
       inEdges := g.inEdges[n.nodeId := At(g.inEdges, n.nodeId)])
  }

  function Listed(lists: map<string, seq<string>>, k: string, id: string): map<string, seq<string>> {
    lists[k := if id in At(lists, k) then At(lists, k) else At(lists, k) + [id]]
  }

  predicate HasEnds(g: Graph, e: Edge) {
    e.src in g.nodes.vals && e.dst in g.nodes.vals
  }

  /** Adding an edge whose end is missing is an error, and changes nothing. */
  function AddEdgeTo(g: Graph, e: Edge): Graph {
    if !HasEnds(g, e) then g
    else g.(edges := Set(g.edges, e.edgeId, e),
            outEdges := Listed(g.outEdges, e.src, e.edgeId),
            inEdges := Listed(g.inEdges, e.dst, e.edgeId))
  }

  // ---- The indexes ----

  function End(e: Edge, out: bool): string {
    if out then e.src else e.dst
  }

  /** The edges that leave (or enter) `n`, in the order in which they were first added. */
  function EdgesAt(keys: seq<string>, vals: map<string, Edge>, out: bool, n: string): seq<string> {
    if |keys| == 0 then []
    else
      var before, k := EdgesAt(keys[..|keys| - 1], vals, out, n), keys[|keys| - 1];
      if k in vals && End(vals[k], out) == n then before + [k] else before
  }

  ghost predicate Indexes(lists: map<string, seq<string>>, g: Graph, out: bool) {
    && lists.Keys == g.nodes.vals.Keys
    && forall n <- lists :: lists[n] == EdgesAt(g.edges.keys, g.edges.vals, out, n)
  }

  ghost predicate WellFormed(g: Graph) {
    && g.nodes.Valid() && g.edges.Valid()
    && (forall id <- g.nodes.vals :: g.nodes.vals[id].nodeId == id)
    && (forall id <- g.edges.vals :: g.edges.vals[id].edgeId == id && HasEnds(g, g.edges.vals[id]))
  }

  /** Everything is filed under its own id, and both indexes are exact. */
  ghost predicate Built(g: Graph) {
    WellFormed(g) && Indexes(g.outEdges, g, true) && Indexes(g.inEdges, g, false)
  }

  lemma {:induction false} EdgesAtMember(keys: seq<string>, vals: map<string, Edge>, out: bool, n: string, id: string)
    ensures id in EdgesAt(keys, vals, out, n) <==> id in keys && id in vals && End(vals[id], out) == n
  {
    if |keys| > 0 {
      EdgesAtMember(keys[..|keys| - 1], vals, out, n, id);
      assert keys == keys[..|keys| - 1] + [keys[|keys| - 1]];
    }
  }

  ghost predicate SameEnds(keys: seq<string>, a: map<string, Edge>, b: map<string, Edge>, out: bool) {
    forall k <- keys :: k in a && k in b && End(a[k], out) == End(b[k], out)
  }

  lemma {:induction false} EdgesAtSame(keys: seq<string>, a: map<string, Edge>, b: map<string, Edge>, out: bool, n: string)
    requires SameEnds(keys, a, b, out)
    ensures EdgesAt(keys, a, out, n) == EdgesAt(keys, b, out, n)
  {
    if |keys| > 0 {
      EdgesAtSame(keys[..|keys| - 1], a, b, out, n);
    }
  }

  lemma EdgesAtNext(keys: seq<string>, k: string, vals: map<string, Edge>, out: bool, n: string)
    requires k in vals
    ensures EdgesAt(keys + [k], vals, out, n) == EdgesAt(keys, vals, out, n) + if End(vals[k], out) == n then [k] else []
  {
    assert (keys + [k])[..|keys|] == keys;
  }

  lemma AddNodeKeeps(g: Graph, n: Node)
    requires Built(g)
    ensures Built(AddNodeTo(g, n))
  {
    hide Indexes;
    AddNodeIndexes(g, n, g.outEdges, true);
    AddNodeIndexes(g, n, g.inEdges, false);
  }

  lemma AddNodeIndexes(g: Graph, n: Node, lists: map<string, seq<string>>, out: bool)
    requires WellFormed(g) && Indexes(lists, g, out)
    ensures Indexes(lists[n.nodeId := At(lists, n.nodeId)], AddNodeTo(g, n), out)
  {
    hide EdgesAt, WellFormed;
    if n.nodeId !in g.nodes.vals {
      NoEdgesAt(g, out, n.nodeId);
    }
  }

  lemma NoEdgesAt(g: Graph, out: bool, n: string)
    requires WellFormed(g) && n !in g.nodes.vals
    ensures EdgesAt(g.edges.keys, g.edges.vals, out, n) == []
  {
    var s := EdgesAt(g.edges.keys, g.edges.vals, out, n);
    if |s| > 0 {
      EdgesAtMember(g.edges.keys, g.edges.vals, out, n, s[0]);
    }
  }

  /** A new edge goes to the end of the two lists it belongs to. */
  lemma ListedNew(g: Graph, lists: map<string, seq<string>>, e: Edge, out: bool)
    requires g.edges.Valid() && Indexes(lists, g, out) && HasEnds(g, e) && e.edgeId !in g.edges.vals
    ensures Indexes(Listed(lists, End(e, out), e.edgeId), AddEdgeTo(g, e), out)
  {
    hide EdgesAt;
    var keys, a := g.edges.keys, g.edges.vals;
    var b := a[e.edgeId := e];
    forall n <- lists ensures Listed(lists, End(e, out), e.edgeId)[n] == EdgesAt(keys + [e.edgeId], b, out, n) {
      EdgesAtSame(keys, a, b, out, n);
      EdgesAtMember(keys, a, out, n, e.edgeId);
      EdgesAtNext(keys, e.edgeId, b, out, n);
    }
  }

  /** An edge added again, between the same ends, changes no list. */
  lemma ListedAgain(g: Graph, lists: map<string, seq<string>>, e: Edge, out: bool)
    requires g.edges.Valid() && Indexes(lists, g, out) && HasEnds(g, e) && e.edgeId in g.edges.vals
    requires End(g.edges.vals[e.edgeId], out) == End(e, out)
    ensures Indexes(Listed(lists, End(e, out), e.edgeId), AddEdgeTo(g, e), out)
  {
    hide EdgesAt;
    var keys, a := g.edges.keys, g.edges.vals;
    EdgesAtMember(keys, a, out, End(e, out), e.edgeId);
    forall n <- lists ensures lists[n] == EdgesAt(keys, a[e.edgeId := e], out, n) {
      EdgesAtSame(keys, a, a[e.edgeId := e], out, n);
    }
  }

  /** An edge that moves its end stays in the list of the end it had. */
  lemma ListedStale(g: Graph, lists: map<string, seq<string>>, e: Edge, out: bool)
    requires WellFormed(g) && Indexes(lists, g, out) && HasEnds(g, e) && e.edgeId in g.edges.vals
    requires End(g.edges.vals[e.edgeId], out) != End(e, out)
    ensures !Indexes(Listed(lists, End(e, out), e.edgeId), AddEdgeTo(g, e), out)
  {
    var h, was := AddEdgeTo(g, e), End(g.edges.vals[e.edgeId], out);
    EdgesAtMember(g.edges.keys, g.edges.vals, out, was, e.edgeId);
    EdgesAtMember(h.edges.keys, h.edges.vals, out, was, e.edgeId);
  }

  /** An edge id that is new, or that names an edge between the same ends. */
  predicate Agrees(g: Graph, e: Edge) {
    e.edgeId in g.edges.vals ==> g.edges.vals[e.edgeId].src == e.src && g.edges.vals[e.edgeId].dst == e.dst
  }

  /** Adding an edge keeps the indexes exact precisely if its id does not already name an edge between other ends. */
  lemma AddEdgeKeeps(g: Graph, e: Edge)
    requires Built(g) && HasEnds(g, e)
    ensures Built(AddEdgeTo(g, e)) <==> Agrees(g, e)
  {
    hide EdgesAt, Indexes, Listed;
    AddEdgeWellFormed(g, e);
    if e.edgeId !in g.edges.vals {
      ListedNew(g, g.outEdges, e, true);
      ListedNew(g, g.inEdges, e, false);
    } else {
      var was := g.edges.vals[e.edgeId];
      if was.src == e.src { ListedAgain(g, g.outEdges, e, true); } else { ListedStale(g, g.outEdges, e, true); }
      if was.dst == e.dst { ListedAgain(g, g.inEdges, e, false); } else { ListedStale(g, g.inEdges, e, false); }
    }
  }

  lemma AddEdgeWellFormed(g: Graph, e: Edge)
    requires WellFormed(g)
    ensures WellFormed(AddEdgeTo(g, e))
  {
  }

  // ---- Serialisation ----

  function RoundedNode(n: Node): Node {
    n.(confidence := Round4(n.confidence))
  }

  function RoundedEdge(e: Edge): Edge {
    e.(weight := Round4(e.weight))
  }

  function ToDict(g: Graph): Document
    requires g.nodes.Valid() && g.edges.Valid()
  {
    Document(g.header, Map(RoundedNode, Values(g.nodes)), Map(RoundedEdge, Values(g.edges)))
  }

  function AddNodes(g: Graph, ns: seq<Node>): Graph {
    if |ns| == 0 then g else AddNodeTo(AddNodes(g, ns[..|ns| - 1]), ns[|ns| - 1])
  }

  function AddEdges(g: Graph, es: seq<Edge>): Graph {
    if |es| == 0 then g else AddEdgeTo(AddEdges(g, es[..|es| - 1]), es[|es| - 1])
  }

  /** A creation time that is missing is replaced by the current one. */
  function FromDict(d: Document, now: string): Graph {
    AddEdges(AddNodes(NewGraph(Loaded(d.header, now)), d.nodes), d.edges)
  }

  function Loaded(h: Header, now: string): Header {
    if h.createdAt == "" then h.(createdAt := now) else h
  }

  /** The graph with its confidences and weights rounded, and nothing else changed. */
  function Rounded(g: Graph): Graph {
    g.(nodes := MapValues(RoundedNode, g.nodes), edges := MapValues(RoundedEdge, g.edges))
  }

  lemma {:induction false} AddNodesTakes(nodes: Dict<string, Node>, h: Graph, ns: seq<Node>)
    requires Built(h) && h.nodes == Empty()
    requires nodes.Valid() && (forall id <- nodes.vals :: nodes.vals[id].nodeId == id)
    requires ns <= Values(nodes)
    ensures var r := AddNodes(h, ns);
            Built(r) && r.header == h.header && r.edges == h.edges && r.nodes == Prefix(nodes, |ns|)
    decreases |ns|
  {
    hide Built, Prefix, Set, At;
    if |ns| > 0 {
      var i := |ns| - 1;
      AddNodesTakes(nodes, h, ns[..i]);
      assert ns[i] == nodes.vals[nodes.keys[i]];
      PrefixNext(nodes, i);
      AddNodeKeeps(AddNodes(h, ns[..i]), ns[i]);
    } else {
      PrefixEnds(nodes);
    }
  }

  lemma {:induction false} AddEdgesTakes(g: Graph, h: Graph, es: seq<Edge>)
    requires Built(h) && h.edges == Empty() && WellFormed(g) && g.nodes == h.nodes
    requires es <= Values(g.edges)
    ensures var r := AddEdges(h, es);
            Built(r) && r.header == h.header && r.nodes == h.nodes && r.edges == Prefix(g.edges, |es|)
    decreases |es|
  {
    if |es| > 0 {
      hide Built, Prefix, Set, Listed;
      var i := |es| - 1;
      AddEdgesTakes(g, h, es[..i]);
      var k := g.edges.keys[i];
      assert es[i] == g.edges.vals[k];
      PrefixNext(g.edges, i);
      PrefixLacks(g.edges, i);
      AddEdgeKeeps(AddEdges(h, es[..i]), es[i]);
    } else {
      hide Built, Prefix;
      PrefixEnds(g.edges);
    }
  }

  lemma PrefixLacks<V>(d: Dict<string, V>, i: nat)
    requires d.Valid() && i < |d.keys|
    ensures d.keys[i] !in Prefix(d, i).vals
  {
  }

  /** The nodes and edges determine the indexes. */
  lemma IndexesDetermined(g: Graph, h: Graph)
    requires Built(g) && Built(h) && g.header == h.header && g.nodes == h.nodes && g.edges == h.edges
    ensures g == h
  {
  }

  lemma RoundedIndexes(g: Graph, lists: map<string, seq<string>>, out: bool)
    requires g.edges.Valid() && Indexes(lists, g, out)
    ensures Indexes(lists, Rounded(g), out)
  {
    forall n <- lists ensures lists[n] == EdgesAt(g.edges.keys, Rounded(g).edges.vals, out, n) {
      EdgesAtSame(g.edges.keys, g.edges.vals, Rounded(g).edges.vals, out, n);
    }
  }

  lemma RoundedBuilt(g: Graph)
    requires Built(g)
    ensures Built(Rounded(g))
    ensures ToDict(g) == Document(g.header, Values(Rounded(g).nodes), Values(Rounded(g).edges))
  {
    hide Indexes, Values, Map;
    ValuesMapped(RoundedNode, g.nodes);
    ValuesMapped(RoundedEdge, g.edges);
    RoundedIndexes(g, g.outEdges, true);
    RoundedIndexes(g, g.inEdges, false);
  }

  lemma RoundedTwice(g: Graph)
    ensures Rounded(Rounded(g)) == Rounded(g)
  {
    hide MapValues;
    Round4IsRounding();
    MappedTwice(RoundedNode, g.nodes);
    MappedTwice(RoundedEdge, g.edges);
  }

  /**
   Loading what was saved gives the same graph up to the rounding to four places: the same nodes and
   edges in the same order, no edge dropped, and the same indexes.  Saving it again gives the same
   document.
   */
  lemma RoundTrip(g: Graph, now: string)
    requires Built(g) && g.header.createdAt != ""
    ensures var h := FromDict(ToDict(g), now);
            && h.header == g.header && h.nodes.keys == g.nodes.keys && h.edges.keys == g.edges.keys
            && h.outEdges == g.outEdges && h.inEdges == g.inEdges
            && h.nodes.vals == (map id | id in g.nodes.vals :: g.nodes.vals[id].(confidence := Round4(g.nodes.vals[id].confidence)))
            && h.edges.vals == (map id | id in g.edges.vals :: g.edges.vals[id].(weight := Round4(g.edges.vals[id].weight)))
            && Built(h) && ToDict(h) == ToDict(g)
  {
    hide Built, Rounded, ToDict, FromDict, Round4;
    RoundedIs(g);
    RoundTripIs(g, now);
  }

  lemma RoundedIs(g: Graph)
    ensures var h := Rounded(g);
            && h.header == g.header && h.nodes.keys == g.nodes.keys && h.edges.keys == g.edges.keys
            && h.outEdges == g.outEdges && h.inEdges == g.inEdges
            && h.nodes.vals == (map id | id in g.nodes.vals :: g.nodes.vals[id].(confidence := Round4(g.nodes.vals[id].confidence)))
            && h.edges.vals == (map id | id in g.edges.vals :: g.edges.vals[id].(weight := Round4(g.edges.vals[id].weight)))
  {
  }

  lemma RoundTripIs(g: Graph, now: string)
    requires Built(g) && g.header.createdAt != ""
    ensures FromDict(ToDict(g), now) == Rounded(g)
    ensures Built(Rounded(g)) && ToDict(Rounded(g)) == ToDict(g)
  {
    hide Built, Rounded, ToDict, FromDict;
    RoundedBuilt(g);
    var r := Rounded(g);
    RoundedTwice(g);
    RoundedBuilt(r);
    RoundedHeader(g);
    Reloaded(r, now);
  }

  lemma RoundedHeader(g: Graph)
    ensures Rounded(g).header == g.header
  {
  }

  /** Loading the nodes and edges of a graph in their order gives the graph. */
  lemma Reloaded(r: Graph, now: string)
    requires Built(r) && r.header.createdAt != ""
    ensures FromDict(Document(r.header, Values(r.nodes), Values(r.edges)), now) == r
  {
    var empty := NewGraph(r.header);
    assert Built(empty);
    hide Built, AddNodes, AddEdges, Prefix;
    AddNodesTakes(r.nodes, empty, Values(r.nodes));
    PrefixEnds(r.nodes);
    var withNodes := AddNodes(empty, Values(r.nodes));
    AddEdgesTakes(r, withNodes, Values(r.edges));
    PrefixEnds(r.edges);
    IndexesDetermined(AddEdges(withNodes, Values(r.edges)), r);
  }

  lemma AddNodesNext(g: Graph, ns: seq<Node>, n: Node)
    requires Built(g) && Built(AddNodes(g, ns))
    ensures AddNodes(g, ns + [n]) == AddNodeTo(AddNodes(g, ns), n) && Built(AddNodes(g, ns + [n]))
    ensures AddNodes(g, ns + [n]).nodes.vals == AddNodes(g, ns).nodes.vals[n.nodeId := n]
    ensures AddNodes(g, ns + [n]).edges == AddNodes(g, ns).edges
  {
    hide Built;
    assert (ns + [n])[..|ns|] == ns;
    AddNodeKeeps(AddNodes(g, ns), n);
  }

  /** A graph of three nodes without edges. */
  lemma ThreeNodes(header: Header, a: Node, b: Node, c: Node)
    ensures var g := AddNodes(NewGraph(header), [] + [a] + [b] + [c]);
            Built(g) && g.edges == Empty() && g.nodes.vals == map[][a.nodeId := a][b.nodeId := b][c.nodeId := c]
  {
    var empty, none := NewGraph(header), [];
    assert Built(empty) && AddNodes(empty, none) == empty;
    hide Built, AddNodes;
    AddNodesNext(empty, none, a);
    AddNodesNext(empty, none + [a], b);
    AddNodesNext(empty, none + [a] + [b], c);
  }

  lemma AddOneEdge(g: Graph, e: Edge)
    ensures AddEdges(g, [e]) == AddEdgeTo(g, e)
  {
    assert [e][..0] == [];
  }

  /** An edge that is added, and then added again with another end: the index of the old end is stale. */
  lemma MovedEdgeBreaks(header: Header)
    ensures var nodes := AddNodes(NewGraph(header), [] + [Node("a", "", 0.5)] + [Node("b", "", 0.5)] + [Node("c", "", 0.5)]);
            var g := AddEdges(nodes, [Edge("e", "a", "b", "caused_by", 0.5, "")]);
            Built(g) && !Built(AddEdgeTo(g, Edge("e", "a", "c", "caused_by", 0.5, "")))
  {
    hide Built, AddNodes, AddEdges, Listed;
    var a, b, c := Node("a", "", 0.5), Node("b", "", 0.5), Node("c", "", 0.5);
    var e, moved := Edge("e", "a", "b", "caused_by", 0.5, ""), Edge("e", "a", "c", "caused_by", 0.5, "");
    ThreeNodes(header, a, b, c);
    var nodes := AddNodes(NewGraph(header), [] + [a] + [b] + [c]);
    AddOneEdge(nodes, e);
    AddEdgeKeeps(nodes, e);
    AddEdgeKeeps(AddEdgeTo(nodes, e), moved);
  }
}
