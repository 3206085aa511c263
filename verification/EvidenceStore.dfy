/** The evidence graph as the object that investigations fill, walk and save. */
module EvidenceStore {
  import opened Base
  import opened Dicts
  import opened EvidenceGraphs
  import opened EvidenceTraversals

  class EvidenceGraph {
    var header: Header
    var nodes: Dict<string, Node>
    var edges: Dict<string, Edge>
    var outEdges: map<string, seq<string>>
    var inEdges: map<string, seq<string>>

    ghost function State(): Graph
      reads this
    {
      Graph(header, nodes, edges, outEdges, inEdges)
    }

    constructor (header: Header, now: string)
      ensures State() == NewGraph(Loaded(header, now)) && Built(State())
      ensures this.header == if header.createdAt == "" then header.(createdAt := now) else header
    {
      this.header := Loaded(header, now);
      nodes, edges, outEdges, inEdges := Empty(), Empty(), map[], map[];
    }

    method AddNode(n: Node) returns (id: string)
      modifies this`nodes, this`outEdges, this`inEdges
      ensures State() == AddNodeTo(old(State()), n) && id == n.nodeId
      ensures nodes.vals == old(nodes.vals)[n.nodeId := n] && edges == old(edges)
    {
      nodes := Set(nodes, n.nodeId, n);
      outEdges := outEdges[n.nodeId := At(outEdges, n.nodeId)];
      inEdges := inEdges[n.nodeId := At(inEdges, n.nodeId)];
      id := n.nodeId;
    }

    method AddEdge(e: Edge) returns (r: Result<string, string>)
      modifies this`edges, this`outEdges, this`inEdges
      ensures State() == AddEdgeTo(old(State()), e)
      ensures r == if e.src in nodes.vals && e.dst in nodes.vals then Success(e.edgeId) else Failure("ValueError")
      ensures nodes == old(nodes) && (r.Failure? ==> State() == old(State()))
      ensures r.Success? ==> edges.vals == old(edges.vals)[e.edgeId := e]
    {
      if e.src !in nodes.vals || e.dst !in nodes.vals { return Failure("ValueError"); }
      edges := Set(edges, e.edgeId, e);
      outEdges := Append(outEdges, e.src, e.edgeId);
      inEdges := Append(inEdges, e.dst, e.edgeId);
      r := Success(e.edgeId);
    }

    method Append(lists: map<string, seq<string>>, k: string, id: string) returns (r: map<string, seq<string>>)
      ensures r == Listed(lists, k, id)
    {
      r := lists[k := At(lists, k)];
      if id !in r[k] { r := r[k := r[k] + [id]]; }
    }

    method GetOutgoing(nodeId: string, rel: Relationship) returns (result: seq<Node>)
      ensures result == Follow(State(), At(outEdges, nodeId), true, rel)
    {
      result := [];
      var ids := At(outEdges, nodeId);
      for i := 0 to |ids|
        invariant result == Follow(State(), ids[..i], true, rel)
      {
        assert ids[..i + 1][..i] == ids[..i];
        if ids[i] in edges.vals {
          var edge := edges.vals[ids[i]];
          if (rel == None || edge.relationship == rel.value) && edge.dst in nodes.vals {
            result := result + [nodes.vals[edge.dst]];
          }
        }
      }
      assert ids[..|ids|] == ids;
    }

    method GetIncoming(nodeId: string, rel: Relationship) returns (result: seq<Node>)
      ensures result == Follow(State(), At(inEdges, nodeId), false, rel)
    {
      result := [];
      var ids := At(inEdges, nodeId);
      for i := 0 to |ids|
        invariant result == Follow(State(), ids[..i], false, rel)
      {
        assert ids[..i + 1][..i] == ids[..i];
        if ids[i] in edges.vals {
          var edge := edges.vals[ids[i]];
          if (rel == None || edge.relationship == rel.value) && edge.src in nodes.vals {
            result := result + [nodes.vals[edge.src]];
          }
        }
      }
      assert ids[..|ids|] == ids;
    }

    /** The unvisited among the neighbours of one node, in order. */
    method Visit(neighbors: seq<Node>, seen: set<string>) returns (added: seq<Node>, visited: set<string>)
      ensures added == Unseen(neighbors, seen) && visited == seen + IdSet(added)
    {
      added, visited := [], seen;
      for i := 0 to |neighbors|
        invariant added == Unseen(neighbors[..i], seen) && visited == seen + IdSet(added)
      {
        assert neighbors[..i + 1][..i] == neighbors[..i];
        if neighbors[i].nodeId !in visited {
          visited := visited + {neighbors[i].nodeId};
          added := added + [neighbors[i]];
        }
      }
      assert neighbors[..|neighbors|] == neighbors;
    }

    method NeighborsOf(nodeId: string, direction: string, rel: Relationship) returns (neighbors: seq<Node>)
      ensures neighbors == Neighbours(State(), nodeId, direction, rel)
    {
      neighbors := [];
      if direction == "out" || direction == "both" {
        var outgoing := GetOutgoing(nodeId, rel);
        neighbors := neighbors + outgoing;
      }
      if direction == "in" || direction == "both" {
        var incoming := GetIncoming(nodeId, rel);
        neighbors := neighbors + incoming;
      }
    }

    /** One hop: everything first met from the frontier. */
    method NextFrontier(frontier: seq<string>, direction: string, rel: Relationship, seen: set<string>)
      returns (added: seq<Node>, visited: set<string>)
      ensures added == Layer(State(), direction, rel, frontier, seen) && visited == seen + IdSet(added)
    {
      hide Unseen, Neighbours;
      added, visited := [], seen;
      for i := 0 to |frontier|
        invariant added == Layer(State(), direction, rel, frontier[..i], seen) && visited == seen + IdSet(added)
      {
        assert frontier[..i + 1][..i] == frontier[..i];
        var neighbors := NeighborsOf(frontier[i], direction, rel);
        var more;
        more, visited := Visit(neighbors, visited);
        assert IdSet(added + more) == IdSet(added) + IdSet(more);
        added := added + more;
      }
      assert frontier[..|frontier|] == frontier;
    }

    method TraverseFrom(root: string, maxHops: int, direction: string, rel: Relationship) returns (result: seq<Node>)
      requires Built(State())
      ensures Finds(State(), direction, rel, root, if maxHops < 0 then 0 else maxHops, result)
      ensures result == Traversed(State(), direction, rel, root, if maxHops < 0 then 0 else maxHops).result
    {
      hide Built, Finds;
      var visited, frontier := {root}, [root];
      result := [];
      var hops := 0;
      while hops < maxHops
        invariant 0 <= hops && (hops <= maxHops || hops == 0)
        invariant Traversed(State(), direction, rel, root, hops) == Progress(visited, frontier, result)
      {
        var added;
        added, visited := NextFrontier(frontier, direction, rel, visited);
        result := result + added;
        frontier := Ids(added);
        hops := hops + 1;
        if |frontier| == 0 {
          TraversedDone(State(), direction, rel, root, hops, maxHops);
          break;
        }
      }
      TraversalMeaning(State(), direction, rel, root, if maxHops < 0 then 0 else maxHops);
    }

    /** Edges without both ends are skipped. */
    static method Load(d: Document, now: string) returns (g: EvidenceGraph)
      ensures fresh(g) && g.State() == FromDict(d, now)
    {
      hide AddNodeTo, AddEdgeTo;
      g := new EvidenceGraph(d.header, now);
      ghost var empty := g.State();
      for i := 0 to |d.nodes|
        invariant fresh(g) && g.State() == AddNodes(empty, d.nodes[..i])
      {
        assert d.nodes[..i + 1][..i] == d.nodes[..i];
        var _ := g.AddNode(d.nodes[i]);
      }
      assert d.nodes[..|d.nodes|] == d.nodes;
      ghost var withNodes := g.State();
      for i := 0 to |d.edges|
        invariant fresh(g) && g.State() == AddEdges(withNodes, d.edges[..i])
      {
        assert d.edges[..i + 1][..i] == d.edges[..i];
        var _ := g.AddEdge(d.edges[i]);
      }
      assert d.edges[..|d.edges|] == d.edges;
    }
  }

  /** An edge id determines the ends of the edge. */
  ghost predicate Consistent(es: seq<Edge>) {
    forall i, j :: 0 <= i < j < |es| && es[i].edgeId == es[j].edgeId ==> es[i].src == es[j].src && es[i].dst == es[j].dst
  }

  lemma {:induction false} AddNodesBuilt(g: Graph, ns: seq<Node>)
    requires Built(g)
    ensures Built(AddNodes(g, ns)) && AddNodes(g, ns).edges == g.edges
  {
    if |ns| > 0 {
      hide Built;
      AddNodesBuilt(g, ns[..|ns| - 1]);
      AddNodeKeeps(AddNodes(g, ns[..|ns| - 1]), ns[|ns| - 1]);
    }
  }

  lemma {:induction false} AddedFrom(g: Graph, es: seq<Edge>, id: string)
    requires g.edges == Empty() && id in AddEdges(g, es).edges.vals
    ensures AddEdges(g, es).edges.vals[id] in es && AddEdges(g, es).edges.vals[id].edgeId == id
  {
    if |es| > 0 {
      var before := AddEdges(g, es[..|es| - 1]);
      if id in before.edges.vals {
        AddedFrom(g, es[..|es| - 1], id);
      }
    }
  }

  lemma {:induction false} AddEdgesBuilt(g: Graph, es: seq<Edge>)
    requires Built(g) && g.edges == Empty() && Consistent(es)
    ensures Built(AddEdges(g, es))
  {
    if |es| > 0 {
      hide Built;
      var front, e := es[..|es| - 1], es[|es| - 1];
      AddEdgesBuilt(g, front);
      var before := AddEdges(g, front);
      if e.edgeId in before.edges.vals {
        AddedFrom(g, front, e.edgeId);
      }
      if HasEnds(before, e) {
        AddEdgeKeeps(before, e);
      }
    }
  }

  /** Any document whose edge ids determine the ends of the edges loads into a graph with exact indexes. */
  lemma LoadedBuilt(d: Document, now: string)
    requires Consistent(d.edges)
    ensures Built(FromDict(d, now))
  {
    var empty := NewGraph(Loaded(d.header, now));
    assert Built(empty);
    AddNodesBuilt(empty, d.nodes);
    AddEdgesBuilt(AddNodes(empty, d.nodes), d.edges);
  }
}
