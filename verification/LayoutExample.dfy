/** Why an edge of the layout need not lead to the right: a node raised after its visit leaves its children where they are. */
module LayoutExample {
  import opened Base
  import opened Events
  import opened ExecutionGraphs
  import opened GraphLayout
  import opened GraphBuilders
  import opened GraphRebuild
  import opened LayoutOrder

  /**
   The edges r-a, r-c, c-b, a-x, b-x and x-z, as when a tool is called right after the start and
   another after the classification, and a hypothesis and a decision follow.
   */
  ghost predicate LateRaise(g: Graph, r: NodeId, a: NodeId, c: NodeId, b: NodeId, x: NodeId, z: NodeId) {
    && Distinct([r, a, c, b, x, z])
    && Has(g, r) && Has(g, a) && Has(g, c) && Has(g, b) && Has(g, x) && Has(g, z)
    && RootsIn(g.nodes) == [r]
    && ChildrenOf(g, r) == [a, c] && ChildrenOf(g, a) == [x] && ChildrenOf(g, c) == [b]
    && ChildrenOf(g, b) == [x] && ChildrenOf(g, x) == [z] && ChildrenOf(g, z) == []
  }

  lemma Different(r: NodeId, a: NodeId, c: NodeId, b: NodeId, x: NodeId, z: NodeId)
    requires Distinct([r, a, c, b, x, z])
    ensures r != a && r != c && r != b && r != x && r != z && a != c && a != b && a != x && a != z
    ensures c != b && c != x && c != z && b != x && b != z && x != z
  {
    var s := [r, a, c, b, x, z];
    assert s[0] == r && s[1] == a && s[2] == c && s[3] == b && s[4] == x && s[5] == z;
  }

  lemma VisitsOne(g: Graph, levels: Levels, queue: seq<NodeId>, visited: set<NodeId>, id: NodeId, rest: seq<NodeId>, children: seq<NodeId>)
    requires AllIn(g, queue) && queue == [id] + rest && id !in visited && ChildrenOf(g, id) == children
    requires forall c <- children :: Has(g, c)
    ensures AllIn(g, rest + children)
    ensures Assign(g, queue, visited, levels) == Assign(g, rest + children, visited + {id}, Raise(g, levels, id, children))
  {
    assert queue[1..] == rest && queue[0] == id;
    assert id in queue;
    AllPresent(g, children);
    Shrinks(g, visited, id);
  }

  lemma {:induction false} AllPresent(g: Graph, children: seq<NodeId>)
    requires forall c <- children :: Has(g, c)
    ensures Present(g, children) == children
  {
    if |children| > 0 {
      AllPresent(g, children[..|children| - 1]);
    }
  }

  lemma RaisesOne(g: Graph, levels: Levels, id: NodeId, c: NodeId)
    requires Has(g, c)
    ensures Raise(g, levels, id, [c]).vals == RaiseOne(g, levels, id, c).vals
  {
    assert [c][..0] == [];
  }

  lemma RaisesTwo(g: Graph, levels: Levels, id: NodeId, c: NodeId, d: NodeId)
    requires Has(g, c) && Has(g, d)
    ensures Raise(g, levels, id, [c, d]).vals == RaiseOne(g, RaiseOne(g, levels, id, c), id, d).vals
  {
    RaisesOne(g, levels, id, c);
    assert [c, d][..1] == [c];
  }

  /** Both ends of the edge from `x` to `z` are in column 3. */
  lemma EdgeStaysInColumn(g: Graph, r: NodeId, a: NodeId, c: NodeId, b: NodeId, x: NodeId, z: NodeId)
    requires LateRaise(g, r, a, c, b, x, z)
    ensures var levels := FinalLevels(g);
            x in levels.vals && z in levels.vals && levels.vals[x] == levels.vals[z] == 3
  {
    hide Has, ChildrenOf, RootsIn, Assign, Raise, Present, AtZero, Ids;
    RootsAreIn(g);
    Different(r, a, c, b, x, z);
    var l0 := AtZero([r]);
    var l1 := Raise(g, l0, r, [a, c]);
    var l2 := Raise(g, l1, a, [x]);
    var l3 := Raise(g, l2, c, [b]);
    var l4 := Raise(g, l3, x, [z]);
    var l5 := Raise(g, l4, b, [x]);
    assert [] + [a, c] == [a] + [c] && {} + {r} == {r};
    VisitsOne(g, l0, [r], {}, r, [], [a, c]);
    VisitsOne(g, l1, [a] + [c], {r}, a, [c], [x]);
    VisitsOne(g, l2, [c] + [x], {r} + {a}, c, [x], [b]);
    VisitsOne(g, l3, [x] + [b], {r} + {a} + {c}, x, [b], [z]);
    VisitsOne(g, l4, [b] + [z], {r} + {a} + {c} + {x}, b, [z], [x]);
    VisitsOne(g, l5, [z] + [x], {r} + {a} + {c} + {x} + {b}, z, [x], []);
    RaisesNone(g, l5, z);
    assert [x] + [] == [x];
    SkipsLast(g, l5, x, {r} + {a} + {c} + {x} + {b} + {z});
    LevelsReached(g, r, a, c, b, x, z);
  }

  /** The levels given along the way. */
  lemma LevelsReached(g: Graph, r: NodeId, a: NodeId, c: NodeId, b: NodeId, x: NodeId, z: NodeId)
    requires LateRaise(g, r, a, c, b, x, z)
    ensures var l1 := Raise(g, AtZero([r]), r, [a, c]);
            var l4 := Raise(g, Raise(g, Raise(g, l1, a, [x]), c, [b]), x, [z]);
            var levels := Raise(g, l4, b, [x]);
            x in levels.vals && z in levels.vals && levels.vals[x] == levels.vals[z] == 3
  {
    hide Has, ChildrenOf, RootsIn, Raise, AtZero;
    Different(r, a, c, b, x, z);
    var l0 := AtZero([r]);
    AtZeroOne(r);
    RaisesTwo(g, l0, r, a, c);
    var l1 := Raise(g, l0, r, [a, c]);
    RaisesOne(g, l1, a, x);
    var l2 := Raise(g, l1, a, [x]);
    RaisesOne(g, l2, c, b);
    var l3 := Raise(g, l2, c, [b]);
    RaisesOne(g, l3, x, z);
    var l4 := Raise(g, l3, x, [z]);
    RaisesOne(g, l4, b, x);
  }

  lemma AtZeroOne(r: NodeId)
    ensures AtZero([r]).vals == map[r := 0]
  {
    assert [r][..0] == [];
    assert AtZero([]).vals == map[];
  }

  lemma RaisesNone(g: Graph, levels: Levels, id: NodeId)
    ensures Raise(g, levels, id, []) == levels
  {
  }

  lemma SkipsLast(g: Graph, levels: Levels, id: NodeId, visited: set<NodeId>)
    requires AllIn(g, [id]) && id in visited
    ensures Assign(g, [id], visited, levels) == levels
  {
    assert [id][1..] == [];
  }

  const START := InvestigationId("i")
  const FIRST_TOOL := ToolId(1, "a")
  const CLASSIFIED := SeqId(Classification, 2)
  const SECOND_TOOL := ToolId(3, "b")
  const HYPOTHESIS := SeqId(Hypothesis, 5)
  const DECISION := SeqId(Decision, 6)

  /** A graph of that shape, as of an investigation in which event 4 is the response of a tool. */
  function Example(): Graph {
    Graph(
      [Node(START, Investigation, 0, [], [FIRST_TOOL, CLASSIFIED]),
       Node(FIRST_TOOL, ToolCall, 1, [START], [HYPOTHESIS]),
       Node(CLASSIFIED, Classification, 2, [START], [SECOND_TOOL]),
       Node(SECOND_TOOL, ToolCall, 3, [CLASSIFIED], [HYPOTHESIS]),
       Node(HYPOTHESIS, Hypothesis, 5, [FIRST_TOOL, SECOND_TOOL], [DECISION]),
       Node(DECISION, Decision, 6, [HYPOTHESIS], [])],
      [Edge(START, FIRST_TOOL), Edge(START, CLASSIFIED), Edge(CLASSIFIED, SECOND_TOOL), Edge(FIRST_TOOL, HYPOTHESIS),
       Edge(SECOND_TOOL, HYPOTHESIS), Edge(HYPOTHESIS, DECISION)])
  }

  lemma ExampleInSequence()
    ensures InSequence(Example().nodes)
  {
    hide InSequence;
    Numbered(Example().nodes);
  }

  /** Nodes that are numbered upwards by their ids have different ids. */
  lemma Numbered(nodes: seq<Node>)
    requires forall i, j :: 0 <= i < j < |nodes| ==> nodes[i].sequenceNum < nodes[j].sequenceNum
    requires forall i :: 0 <= i < |nodes| ==> NumberedBy(nodes[i]) && (i > 0 ==> !nodes[i].id.InvestigationId?)
    ensures InSequence(nodes)
  {
    forall i, j | 0 <= i < j < |nodes| ensures nodes[i].id != nodes[j].id {
      assert NumberedBy(nodes[i]) && NumberedBy(nodes[j]);
    }
  }

  lemma ExampleNodes()
    ensures var nodes := Example().nodes;
            && Index(nodes, START) == 0 && Index(nodes, FIRST_TOOL) == 1 && Index(nodes, CLASSIFIED) == 2
            && Index(nodes, SECOND_TOOL) == 3 && Index(nodes, HYPOTHESIS) == 4 && Index(nodes, DECISION) == 5
  {
    hide Index, InSequence;
    var nodes := Example().nodes;
    ExampleInSequence();
    UniqueIndex(nodes, 0);
    UniqueIndex(nodes, 1);
    UniqueIndex(nodes, 2);
    UniqueIndex(nodes, 3);
    UniqueIndex(nodes, 4);
    UniqueIndex(nodes, 5);
  }

  lemma {:induction false} OneRoot(nodes: seq<Node>)
    requires |nodes| > 0 && nodes[0].parents == [] && forall i :: 0 < i < |nodes| ==> nodes[i].parents != []
    ensures RootsIn(nodes) == [nodes[0].id]
  {
    if |nodes| > 1 {
      OneRoot(nodes[..|nodes| - 1]);
    } else {
      assert nodes[..0] == [];
    }
  }

  // ---- The events that lead there ----

  function ExampleEvents(): seq<Event> {
    [Event("k0", InvestigationStarted, "i", 0, "", ""), Event("k1", ToolCalled, "i", 1, "a", "receipt"),
     Event("k2", IncidentClassified, "i", 2, "", ""), Event("k3", ToolCalled, "i", 3, "b", ""),
     Event("k4", ToolResponded, "i", 4, "a", "receipt"), Event("k5", HypothesisScored, "i", 5, "", ""),
     Event("k6", HypothesisSelected, "i", 6, "", "")]
  }

  /** An event with the expected number only does what its handler does. */
  lemma ExpectedEvent(b: Builder, e: Event)
    requires e.sequenceNum == b.expectedSeq
    ensures Structure(b, e) == Handle(b.(expectedSeq := e.sequenceNum + 1, totalEvents := b.totalEvents + 1), e)
  {
    NoGaps(b, b.expectedSeq, e.sequenceNum);
  }

  function Under(nodes: seq<Node>, i: nat, n: Node): seq<Node>
    requires i < |nodes|
  {
    nodes[i := nodes[i].(children := nodes[i].children + [n.id])] + [n.(parents := n.parents + [nodes[i].id])]
  }

  /** An edge from a node to one that stands last and is new to it. */
  lemma EdgeToLast(nodes: seq<Node>, edges: seq<Edge>, n: Node, i: nat)
    requires InSequence(nodes + [n]) && i < |nodes|
    requires Edge(nodes[i].id, n.id) !in edges && n.id !in nodes[i].children && nodes[i].id !in n.parents
    ensures AddEdge(Graph(nodes + [n], edges), Edge(nodes[i].id, n.id)) == Graph(Under(nodes, i, n), edges + [Edge(nodes[i].id, n.id)])
  {
    hide Index;
    var all := nodes + [n];
    UniqueIndex(all, i);
    UniqueIndex(all, |nodes|);
    SameIndex(all, WithChild(all, nodes[i].id, n.id), n.id);
  }

  lemma OneParent(g: Graph, p: NodeId, t: NodeId)
    ensures EdgesFrom(g, [p], t) == AddEdge(g, Edge(p, t))
  {
    assert [p][..0] == [];
  }

  lemma TwoParents(g: Graph, p: NodeId, q: NodeId, t: NodeId)
    ensures EdgesFrom(g, [p, q], t) == AddEdge(AddEdge(g, Edge(p, t)), Edge(q, t))
  {
    OneParent(g, p, t);
    assert [p, q][..1] == [p];
  }

  /** A new node under the one node of the last phase. */
  lemma AttachUnder(b: Builder, n: Node, i: nat)
    requires Ordered(b.graph) && Below(b.graph, n.sequenceNum) && i < |b.graph.nodes| && b.lastPhase == [b.graph.nodes[i].id]
    requires NumberedBy(n) && n.parents == [] && n.children == [] && !n.id.InvestigationId?
    ensures Attach(b, n) == b.(graph := Graph(Under(b.graph.nodes, i, n), b.graph.edges + [Edge(b.graph.nodes[i].id, n.id)]))
  {
    hide AddEdge, AddNode, Ordered, Has, EdgesFrom, Under;
    var g := b.graph;
    NewId(g, n.id, n.kind, n.sequenceNum);
    NotYetLinked(g, n, i);
    OneParent(AddNode(g, n), g.nodes[i].id, n.id);
    EdgeToLast(g.nodes, g.edges, n, i);
  }

  function WithChildAt(nodes: seq<Node>, i: nat, c: NodeId): seq<Node>
    requires i < |nodes|
  {
    nodes[i := nodes[i].(children := nodes[i].children + [c])]
  }

  lemma TwoEdges(nodes: seq<Node>, edges: seq<Edge>, n: Node, i: nat, j: nat)
    requires InSequence(nodes + [n]) && i < j < |nodes| && n.parents == [] && nodes[i].id != nodes[j].id
    requires Edge(nodes[i].id, n.id) !in edges && n.id !in nodes[i].children
    requires Edge(nodes[j].id, n.id) !in edges && n.id !in nodes[j].children
    ensures AddEdge(AddEdge(Graph(nodes + [n], edges), Edge(nodes[i].id, n.id)), Edge(nodes[j].id, n.id)) ==
            Graph(Under(WithChildAt(nodes, i, n.id), j, n.(parents := [nodes[i].id])),
                  edges + [Edge(nodes[i].id, n.id)] + [Edge(nodes[j].id, n.id)])
  {
    var half, m := WithChildAt(nodes, i, n.id), n.(parents := [nodes[i].id]);
    SameInSequence(nodes + [n], half + [m]);
    hide AddEdge, InSequence;
    EdgeToLast(nodes, edges, n, i);
    assert n.parents + [nodes[i].id] == [nodes[i].id];
    assert Under(nodes, i, n) == half + [m];
    EdgeToLast(half, edges + [Edge(nodes[i].id, n.id)], m, j);
  }

  /** A new node under the two nodes of the last phase. */
  lemma AttachUnderTwo(b: Builder, n: Node, i: nat, j: nat)
    requires Ordered(b.graph) && Below(b.graph, n.sequenceNum) && i < j < |b.graph.nodes|
    requires b.lastPhase == [b.graph.nodes[i].id, b.graph.nodes[j].id]
    requires NumberedBy(n) && n.parents == [] && n.children == [] && !n.id.InvestigationId?
    ensures var nodes, p, q := b.graph.nodes, b.graph.nodes[i].id, b.graph.nodes[j].id;
            Attach(b, n) == b.(graph := Graph(
              Under(WithChildAt(nodes, i, n.id), j, n.(parents := [p])), b.graph.edges + [Edge(p, n.id)] + [Edge(q, n.id)]))
  {
    var g := b.graph;
    IdsDiffer(g.nodes, i, j);
    hide AddEdge, AddNode, Ordered, Has, EdgesFrom, InSequence, Under, WithChildAt;
    NewId(g, n.id, n.kind, n.sequenceNum);
    NotYetLinked(g, n, i);
    NotYetLinked(g, n, j);
    TwoParents(AddNode(g, n), g.nodes[i].id, g.nodes[j].id, n.id);
    TwoEdges(g.nodes, g.edges, n, i, j);
  }

  lemma IdsDiffer(nodes: seq<Node>, i: nat, j: nat)
    requires InSequence(nodes) && i < j < |nodes|
    ensures nodes[i].id != nodes[j].id
  {
  }

  lemma NotYetLinked(g: Graph, n: Node, i: nat)
    requires Ordered(g) && Below(g, n.sequenceNum) && !Has(g, n.id) && i < |g.nodes|
    requires NumberedBy(n) && n.parents == [] && n.children == []
    ensures AddNode(g, n) == Graph(g.nodes + [n], g.edges) && InSequence(g.nodes + [n])
    ensures Edge(g.nodes[i].id, n.id) !in g.edges && n.id !in g.nodes[i].children
  {
    AddNodeOrdered(g, n);
    assert NodeMirrored(g.nodes[i], g.edges);
  }
  // Stage by stage: the graph and the phase parents after so many of the events.

  const N0 := Node(START, Investigation, 0, [], [])
  const N1 := Node(FIRST_TOOL, ToolCall, 1, [START], [])
  const N2 := Node(CLASSIFIED, Classification, 2, [START], [])
  const N3 := Node(SECOND_TOOL, ToolCall, 3, [CLASSIFIED], [])
  const N5 := Node(HYPOTHESIS, Hypothesis, 5, [FIRST_TOOL, SECOND_TOOL], [])

  type Calls = map<string, NodeId>

  ghost predicate At(k: nat, nodes: seq<Node>, edges: seq<Edge>, last: seq<NodeId>, calls: Calls)
    requires k <= 7
  {
    var b := ProcessAll(NewBuilder(), ExampleEvents()[..k]);
    b.graph == Graph(nodes, edges) && b.lastPhase == last && b.toolCalls == calls && b.expectedSeq == k && Sound(b)
  }

  lemma ExpectedProcess(b: Builder, e: Event)
    requires Sound(b) && e.sequenceNum == b.expectedSeq
    ensures var r, b' := Handle(b.(expectedSeq := e.sequenceNum + 1, totalEvents := b.totalEvents + 1), e), Process(b, e);
            && b'.graph == r.graph && b'.lastPhase == r.lastPhase && b'.toolCalls == r.toolCalls
            && b'.expectedSeq == e.sequenceNum + 1 && Sound(b')
  {
    hide Handle, Structure, FinalLevels, Placed, Sound;
    ProcessSound(b, e);
    ExpectedEvent(b, e);
  }

  lemma ProcessAllNext(events: seq<Event>, k: nat)
    requires k < |events|
    ensures ProcessAll(NewBuilder(), events[..k + 1]) == Process(ProcessAll(NewBuilder(), events[..k]), events[k])
  {
    hide Process;
    assert events[..k + 1][..k] == events[..k];
  }

  lemma ExampleNumbers(k: nat)
    requires k < 7
    ensures |ExampleEvents()| == 7 && ExampleEvents()[k].sequenceNum == k
  {
  }

  /** One more of the events: what its handler makes of the structure. */
  lemma NextEvent(k: nat, nodes: seq<Node>, edges: seq<Edge>, last: seq<NodeId>, calls: Calls) returns (b: Builder)
    requires k < 7 && At(k, nodes, edges, last, calls)
    ensures b.graph == Graph(nodes, edges) && b.lastPhase == last && b.toolCalls == calls
    ensures Ordered(b.graph) && Below(b.graph, k) && |ExampleEvents()| == 7 && ExampleEvents()[k].sequenceNum == k
    ensures var r := Handle(b, ExampleEvents()[k]); At(k + 1, r.graph.nodes, r.graph.edges, r.lastPhase, r.toolCalls)
  {
    hide Handle, Process, ProcessAll, ExampleEvents, Ordered, Below;
    ExampleNumbers(k);
    var before := ProcessAll(NewBuilder(), ExampleEvents()[..k]);
    ProcessAllNext(ExampleEvents(), k);
    ExpectedProcess(before, ExampleEvents()[k]);
    b := before.(expectedSeq := k + 1, totalEvents := before.totalEvents + 1);
  }

  lemma ToolStage(k: nat, nodes: seq<Node>, edges: seq<Edge>, calls: Calls, i: nat, n: Node)
    requires k < 7 && i < |nodes| && At(k, nodes, edges, [nodes[i].id], calls)
    requires |ExampleEvents()| == 7
    requires var e := ExampleEvents()[k]; e.eventType == ToolCalled && n == NewNode(ToolId(k, Take(e.worker, 6)), ToolCall, k)
    ensures var e := ExampleEvents()[k];
            At(k + 1, Under(nodes, i, n), edges + [Edge(nodes[i].id, n.id)], [nodes[i].id],
               if e.receiptId == "" then calls else calls[e.receiptId := n.id])
  {
    hide At, ExampleEvents, Ordered, Below, Attach, Under, Take;
    var b := NextEvent(k, nodes, edges, [nodes[i].id], calls);
    AttachUnder(b, n, i);
  }

  lemma PhaseStage(k: nat, nodes: seq<Node>, edges: seq<Edge>, calls: Calls, i: nat, kind: Kind)
    requires k < 7 && i < |nodes| && At(k, nodes, edges, [nodes[i].id], calls)
    requires |ExampleEvents()| == 7 && PhaseKind(ExampleEvents()[k].eventType) == Some(kind)
    ensures var n := NewNode(SeqId(kind, k), kind, k);
            At(k + 1, Under(nodes, i, n), edges + [Edge(nodes[i].id, n.id)], [n.id], calls)
  {
    hide At, ExampleEvents, Ordered, Below, Attach, Under, Take;
    var b := NextEvent(k, nodes, edges, [nodes[i].id], calls);
    AttachUnder(b, NewNode(SeqId(kind, k), kind, k), i);
  }

  lemma PhaseStageTwo(k: nat, nodes: seq<Node>, edges: seq<Edge>, calls: Calls, i: nat, j: nat, kind: Kind)
    requires k < 7 && i < j < |nodes| && At(k, nodes, edges, [nodes[i].id, nodes[j].id], calls)
    requires |ExampleEvents()| == 7 && PhaseKind(ExampleEvents()[k].eventType) == Some(kind)
    ensures var n := NewNode(SeqId(kind, k), kind, k);
            At(k + 1, Under(WithChildAt(nodes, i, n.id), j, n.(parents := [nodes[i].id])),
               edges + [Edge(nodes[i].id, n.id)] + [Edge(nodes[j].id, n.id)], [n.id], calls)
  {
    hide At, ExampleEvents, Ordered, Below, Attach, Under, Take, WithChildAt;
    var b := NextEvent(k, nodes, edges, [nodes[i].id, nodes[j].id], calls);
    AttachUnderTwo(b, NewNode(SeqId(kind, k), kind, k), i, j);
  }

  lemma ResponseStage(k: nat, nodes: seq<Node>, edges: seq<Edge>, last: seq<NodeId>, calls: Calls, i: nat)
    requires k < 7 && i < |nodes| && At(k, nodes, edges, last, calls) && |ExampleEvents()| == 7
    requires var e := ExampleEvents()[k]; e.eventType == ToolResponded && e.receiptId in calls && calls[e.receiptId] == nodes[i].id
    ensures At(k + 1, nodes, edges, OpenTools(nodes), calls)
  {
    hide At, ExampleEvents, OpenTools;
    var b := NextEvent(k, nodes, edges, last, calls);
    UniqueIndex(nodes, i);
  }

  lemma NoStage()
    ensures At(0, [], [], [], map[])
  {
    assert ExampleEvents()[..0] == [];
    NewSound();
  }

  lemma StartHandled(b: Builder)
    requires b.graph == Graph([], []) && b.toolCalls == map[]
    ensures var r := Handle(b, ExampleEvents()[0]); r.graph == Graph([N0], []) && r.lastPhase == [START] && r.toolCalls == map[]
  {
  }

  lemma FirstStage()
    ensures At(1, [N0], [], [START], map[])
  {
    hide At, Ordered, Handle, ExampleEvents, Below;
    NoStage();
    var b := NextEvent(0, [], [], [], map[]);
    StartHandled(b);
  }

  lemma UnderIs(nodes: seq<Node>, i: nat, n: Node, children: seq<NodeId>, parents: seq<NodeId>)
    requires i < |nodes| && children == nodes[i].children + [n.id] && parents == n.parents + [nodes[i].id]
    ensures Under(nodes, i, n) == nodes[i := nodes[i].(children := children)] + [n.(parents := parents)]
  {
  }

  const CALLS: Calls := map["receipt" := FIRST_TOOL]

  function TwoEdgesOfStart(): seq<Edge> { [Edge(START, FIRST_TOOL), Edge(START, CLASSIFIED)] }

  function ThreeEdges(): seq<Edge> { TwoEdgesOfStart() + [Edge(CLASSIFIED, SECOND_TOOL)] }

  function FiveEdges(): seq<Edge> { ThreeEdges() + [Edge(FIRST_TOOL, HYPOTHESIS)] + [Edge(SECOND_TOOL, HYPOTHESIS)] }

  lemma ToolStages()
    ensures At(2, [N0.(children := [FIRST_TOOL]), N1], [Edge(START, FIRST_TOOL)], [START], CALLS)
  {
    hide At;
    FirstStage();
    var n := NewNode(FIRST_TOOL, ToolCall, 1);
    ToolStage(1, [N0], [], map[], 0, n);
    UnderIs([N0], 0, n, [FIRST_TOOL], [START]);
    assert Under([N0], 0, n) == [N0.(children := [FIRST_TOOL]), N1];
    assert [] + [Edge(START, FIRST_TOOL)] == [Edge(START, FIRST_TOOL)];
  }

  lemma ClassifiedStage()
    ensures At(3, [N0.(children := [FIRST_TOOL, CLASSIFIED]), N1, N2], TwoEdgesOfStart(), [CLASSIFIED], CALLS)
  {
    hide At;
    ToolStages();
    var nodes, n := [N0.(children := [FIRST_TOOL]), N1], NewNode(CLASSIFIED, Classification, 2);
    PhaseStage(2, nodes, [Edge(START, FIRST_TOOL)], CALLS, 0, Classification);
    UnderIs(nodes, 0, n, [FIRST_TOOL, CLASSIFIED], [START]);
    assert [Edge(START, FIRST_TOOL)] + [Edge(START, CLASSIFIED)] == TwoEdgesOfStart();
    assert Under(nodes, 0, n) == [N0.(children := [FIRST_TOOL, CLASSIFIED]), N1, N2];
  }

  lemma SecondToolStage()
    ensures At(4, [N0.(children := [FIRST_TOOL, CLASSIFIED]), N1, N2.(children := [SECOND_TOOL]), N3],
               ThreeEdges(), [CLASSIFIED], CALLS)
  {
    hide At;
    ClassifiedStage();
    var nodes, n := [N0.(children := [FIRST_TOOL, CLASSIFIED]), N1, N2], NewNode(SECOND_TOOL, ToolCall, 3);
    ToolStage(3, nodes, TwoEdgesOfStart(), CALLS, 2, n);
    UnderIs(nodes, 2, n, [SECOND_TOOL], [CLASSIFIED]);
    assert Under(nodes, 2, n) == [N0.(children := [FIRST_TOOL, CLASSIFIED]), N1, N2.(children := [SECOND_TOOL]), N3];
  }

  lemma TwoOpenTools(a: Node, b: Node, c: Node, d: Node)
    requires a.kind != ToolCall && c.kind != ToolCall && b.kind == d.kind == ToolCall && b.children == d.children == []
    ensures OpenTools([a, b, c, d]) == [b.id, d.id]
  {
    assert [a, b, c, d][..3] == [a, b, c] && [a, b, c][..2] == [a, b] && [a, b][..1] == [a] && [a][..0] == [];
    assert OpenTools([a]) == [];
    assert OpenTools([a, b]) == [b.id];
    assert OpenTools([a, b, c]) == [b.id];
  }

  lemma RespondedStage()
    ensures At(5, [N0.(children := [FIRST_TOOL, CLASSIFIED]), N1, N2.(children := [SECOND_TOOL]), N3],
               ThreeEdges(), [FIRST_TOOL, SECOND_TOOL], CALLS)
  {
    hide At, OpenTools;
    SecondToolStage();
    var a, c := N0.(children := [FIRST_TOOL, CLASSIFIED]), N2.(children := [SECOND_TOOL]);
    ResponseStage(4, [a, N1, c, N3], ThreeEdges(), [CLASSIFIED], CALLS, 1);
    TwoOpenTools(a, N1, c, N3);
  }

  lemma HypothesisStage()
    ensures At(6,
      [N0.(children := [FIRST_TOOL, CLASSIFIED]), N1.(children := [HYPOTHESIS]), N2.(children := [SECOND_TOOL]),
       N3.(children := [HYPOTHESIS]), N5],
      FiveEdges(),
      [HYPOTHESIS], CALLS)
  {
    hide At;
    RespondedStage();
    var a, c := N0.(children := [FIRST_TOOL, CLASSIFIED]), N2.(children := [SECOND_TOOL]);
    var nodes, n := [a, N1, c, N3], NewNode(HYPOTHESIS, Hypothesis, 5);
    PhaseStageTwo(5, nodes, ThreeEdges(), CALLS, 1, 3, Hypothesis);
    assert N1.children + [HYPOTHESIS] == [HYPOTHESIS];
    assert WithChildAt(nodes, 1, n.id) == [a, N1.(children := [HYPOTHESIS]), c, N3];
    UnderIs([a, N1.(children := [HYPOTHESIS]), c, N3], 3, n.(parents := [FIRST_TOOL]), [HYPOTHESIS], [FIRST_TOOL, SECOND_TOOL]);
    assert Under([a, N1.(children := [HYPOTHESIS]), c, N3], 3, n.(parents := [FIRST_TOOL]))
        == [a, N1.(children := [HYPOTHESIS]), c, N3.(children := [HYPOTHESIS]), N5];
  }

  lemma ExampleSequenced()
    ensures Sequenced(ExampleEvents()) && |ExampleEvents()| == 7
  {
    forall k | 0 <= k < 7 ensures ExampleEvents()[k].sequenceNum == k {
      ExampleNumbers(k);
    }
  }

  /** The seven events build the example graph. */
  lemma ExampleIsRebuilt()
    ensures Rebuild(ExampleEvents()).graph == Example()
  {
    hide ExampleEvents, ProcessAll, Example, Sound, InOrder;
    LastStage();
    ExampleSequenced();
    assert ExampleEvents()[..7] == ExampleEvents();
    InOrderAlready(ExampleEvents());
  }

  lemma LastStage()
    ensures At(7, Example().nodes, Example().edges, [DECISION], CALLS)
  {
    hide At;
    HypothesisStage();
    var nodes := [N0.(children := [FIRST_TOOL, CLASSIFIED]), N1.(children := [HYPOTHESIS]), N2.(children := [SECOND_TOOL]),
                  N3.(children := [HYPOTHESIS]), N5];
    var n := NewNode(DECISION, Decision, 6);
    PhaseStage(6, nodes, FiveEdges(),
               CALLS, 4, Decision);
    UnderIs(nodes, 4, n, [DECISION], [HYPOTHESIS]);
    assert Under(nodes, 4, n) == Example().nodes;
    assert FiveEdges() + [Edge(HYPOTHESIS, DECISION)] == Example().edges;
  }

  /** In its layout the edge from the hypothesis to the decision does not lead to the right. */
  lemma ExampleStalls()
    ensures var levels := FinalLevels(Example()).vals;
            HYPOTHESIS in levels && DECISION in levels && levels[HYPOTHESIS] == levels[DECISION]
    ensures Child(Example(), HYPOTHESIS, DECISION)
  {
    hide Index, FinalLevels;
    ExampleNodes();
    OneRoot(Example().nodes);
    EdgeStaysInColumn(Example(), START, FIRST_TOOL, CLASSIFIED, SECOND_TOOL, HYPOTHESIS, DECISION);
  }

  /** Seven events after which an edge of the rebuilt graph does not lead to the right. */
  lemma LayoutMayStall()
    ensures !GoesRight(Rebuild(ExampleEvents()).graph)
  {
    hide FinalLevels, Rebuild, ExampleEvents, Child, Example;
    ExampleIsRebuilt();
    ExampleStalls();
  }
}
