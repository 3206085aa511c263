/** Building the execution graph from the events of an investigation, and laying it out after each. */
module GraphBuilders {
  import opened Base
  import opened Dicts
  import opened Events
  import opened ExecutionGraphs
  import opened GraphLayout

  datatype Builder = Builder(
    graph: Graph, lastPhase: seq<NodeId>, toolCalls: map<string, NodeId>,
    expectedSeq: int, totalEvents: nat, gaps: seq<int>, places: map<NodeId, Place>)

  function NewBuilder(): Builder {
    Builder(Graph([], []), [], map[], 0, 0, [], map[])
  }

  function Take<T>(s: seq<T>, n: nat): (r: seq<T>)
    ensures r <= s && |r| == if |s| <= n then |s| else n
  {
    if |s| <= n then s else s[..n]
  }

  // ---- Nodes and edges ----

  function NewNode(id: NodeId, kind: Kind, number: int): Node {
    Node(id, kind, number, [], [])
  }

  function EdgesFrom(g: Graph, parents: seq<NodeId>, target: NodeId): Graph {
    if |parents| == 0 then g
    else AddEdge(EdgesFrom(g, parents[..|parents| - 1], target), Edge(parents[|parents| - 1], target))
  }

  /** A new node below the nodes of the last phase. */
  function Attach(b: Builder, n: Node): Builder {
    b.(graph := EdgesFrom(AddNode(b.graph, n), b.lastPhase, n.id))
  }

  function AddGap(b: Builder, missing: int): Builder {
    Attach(b, NewNode(GapId(missing), ToolCall, missing)).(gaps := b.gaps + [missing])
  }

  /** A placeholder for each number from `lo` to below `hi`. */
  function AddGaps(b: Builder, lo: int, hi: int): Builder
    decreases hi - lo
  {
    if hi <= lo then b else AddGap(AddGaps(b, lo, hi - 1), hi - 1)
  }

  /** The tool calls, and the placeholders among them, that have no child yet. */
  function OpenTools(nodes: seq<Node>): (r: seq<NodeId>)
    ensures forall id <- r :: exists n <- nodes :: n.id == id
  {
    if |nodes| == 0 then []
    else
      assert nodes == nodes[..|nodes| - 1] + [nodes[|nodes| - 1]];
      var before, n := OpenTools(nodes[..|nodes| - 1]), nodes[|nodes| - 1];
      if n.kind == ToolCall && n.children == [] then before + [n.id] else before
  }

  /** The kind of node that begins a phase of its own. */
  function PhaseKind(t: EventType): Option<Kind> {
    match t
    case IncidentClassified => Some(Classification)
    case PlaybookSelected => Some(Playbook)
    case LlmInvoked => Some(LlmInference)
    case HypothesisScored => Some(Hypothesis)
    case HypothesisSelected => Some(Decision)
    case ControlRequested => Some(Control)
    case RcaGenerated => Some(Rca)
    case _ => None
  }

  function Handle(b: Builder, e: Event): Builder {
    var t := e.eventType;
    if t == InvestigationStarted then
      var id := InvestigationId(Take(e.investigation, 8));
      b.(graph := AddNode(b.graph, NewNode(id, Investigation, e.sequenceNum)), lastPhase := [id])
    else if t == ToolCalled then
      var id := ToolId(e.sequenceNum, Take(e.worker, 6));
      Attach(b, NewNode(id, ToolCall, e.sequenceNum)).(
        toolCalls := if e.receiptId == "" then b.toolCalls else b.toolCalls[e.receiptId := id])
    else if t == ToolResponded || t == ToolFailed || t == ToolTimeout then
      Respond(b, e)
    else if t == MemoryQueried then
      Attach(b, NewNode(SeqId(MemoryQuery, e.sequenceNum), MemoryQuery, e.sequenceNum))
    else if PhaseKind(t) != None then
      var kind := PhaseKind(t).value;
      Attach(b, NewNode(SeqId(kind, e.sequenceNum), kind, e.sequenceNum)).(lastPhase := [SeqId(kind, e.sequenceNum)])
    else b
  }

  /** A response to a known call makes the open tool calls the parents of what follows. */
  function Respond(b: Builder, e: Event): Builder {
    if e.receiptId in b.toolCalls && Has(b.graph, b.toolCalls[e.receiptId])
    then b.(lastPhase := OpenTools(b.graph.nodes))
    else b
  }

  function Structure(b: Builder, e: Event): Builder {
    var g := AddGaps(b, b.expectedSeq, e.sequenceNum);
    Handle(g.(expectedSeq := e.sequenceNum + 1, totalEvents := g.totalEvents + 1), e)
  }

  ghost function Process(b: Builder, e: Event): Builder {
    var s := Structure(b, e);
    s.(places := Placed(s.graph, b.places, FinalLevels(s.graph)))
  }

  ghost function ProcessAll(b: Builder, events: seq<Event>): Builder {
    if |events| == 0 then b else Process(ProcessAll(b, events[..|events| - 1]), events[|events| - 1])
  }

  ghost function Rebuild(events: seq<Event>): Builder {
    ProcessAll(NewBuilder(), InOrder(events))
  }

  class GraphBuilder {
    var graph: Graph
    var lastPhase: seq<NodeId>
    var toolCalls: map<string, NodeId>
    var expectedSeq: int
    var totalEvents: nat
    var gaps: seq<int>
    var places: map<NodeId, Place>

    ghost function State(): Builder
      reads this
    {
      Builder(graph, lastPhase, toolCalls, expectedSeq, totalEvents, gaps, places)
    }

    constructor ()
      ensures State() == NewBuilder()
    {
      graph, lastPhase, toolCalls := Graph([], []), [], map[];
      expectedSeq, totalEvents, gaps, places := 0, 0, [], map[];
    }

    method ProcessEvent(e: Event)
      modifies this
      ensures State() == Process(old(State()), e)
    {
      hide Handle, FinalLevels, Placed, AddGap, Attach;
      if e.sequenceNum > expectedSeq {
        for missing := expectedSeq to e.sequenceNum
          invariant State() == AddGaps(old(State()), old(expectedSeq), missing)
        {
          AddGapNode(missing);
        }
      }
      expectedSeq := e.sequenceNum + 1;
      totalEvents := totalEvents + 1;
      StructureKeepsPlaces(old(State()), e);
      HandleEvent(e);
      ComputeLayout();
    }

    method AddGapNode(missing: int)
      modifies this`graph, this`gaps
      ensures State() == AddGap(old(State()), missing)
    {
      gaps := gaps + [missing];
      AttachNode(NewNode(GapId(missing), ToolCall, missing));
    }

    method AttachNode(n: Node)
      modifies this`graph
      ensures State() == Attach(old(State()), n)
    {
      graph := AddNode(graph, n);
      ghost var g := graph;
      for i := 0 to |lastPhase|
        invariant graph == EdgesFrom(g, lastPhase[..i], n.id)
        invariant State() == old(State()).(graph := graph)
      {
        assert lastPhase[..i + 1][..i] == lastPhase[..i];
        graph := AddEdge(graph, Edge(lastPhase[i], n.id));
      }
      assert lastPhase[..|lastPhase|] == lastPhase;
    }

    method HandleEvent(e: Event)
      modifies this`graph, this`lastPhase, this`toolCalls
      ensures State() == Handle(old(State()), e)
    {
      var t := e.eventType;
      if t == InvestigationStarted {
        var id := InvestigationId(Take(e.investigation, 8));
        graph := AddNode(graph, NewNode(id, Investigation, e.sequenceNum));
        lastPhase := [id];
      } else if t == ToolCalled {
        var id := ToolId(e.sequenceNum, Take(e.worker, 6));
        if e.receiptId != "" { toolCalls := toolCalls[e.receiptId := id]; }
        AttachNode(NewNode(id, ToolCall, e.sequenceNum));
      } else if t == ToolResponded || t == ToolFailed || t == ToolTimeout {
        OnToolResponded(e);
      } else if t == MemoryQueried {
        AttachNode(NewNode(SeqId(MemoryQuery, e.sequenceNum), MemoryQuery, e.sequenceNum));
      } else if PhaseKind(t) != None {
        var kind := PhaseKind(t).value;
        AttachNode(NewNode(SeqId(kind, e.sequenceNum), kind, e.sequenceNum));
        lastPhase := [SeqId(kind, e.sequenceNum)];
      }
    }

    method OnToolResponded(e: Event)
      modifies this`lastPhase
      ensures State() == Respond(old(State()), e)
    {
      if e.receiptId !in toolCalls || !Has(graph, toolCalls[e.receiptId]) { return; }
      lastPhase := OpenTools(graph.nodes);
    }

    method ComputeLayout()
      modifies this`places
      ensures State() == old(State()).(places := Placed(graph, old(places), FinalLevels(graph)))
    {
      hide FinalLevels, Placed;
      FinalLevelsMeaning(graph);
      var levels := AssignLevels();
      places := SpreadLevels(levels);
    }

    /** Levels breadth-first from the roots; a node raised after it was visited does not raise its children again. */
    method AssignLevels() returns (levels: Levels)
      ensures levels == FinalLevels(graph)
    {
      hide Raise, ChildrenOf, Ids;
      var queue := RootsIn(graph.nodes);
      levels := Empty();
      for i := 0 to |queue|
        invariant levels == AtZero(queue[..i])
      {
        assert queue[..i + 1][..i] == queue[..i];
        levels := Set(levels, queue[i], 0);
      }
      assert queue[..|queue|] == queue;
      var visited: set<NodeId> := {};
      RootsAreIn(graph);
      while |queue| > 0
        invariant AllIn(graph, queue)
        invariant Assign(graph, queue, visited, levels) == FinalLevels(graph)
        decreases |Ids(graph) - visited|, |queue|
      {
        var id := queue[0];
        assert id in Ids(graph);
        queue := queue[1..];
        if id !in visited {
          Shrinks(graph, visited, id);
          visited := visited + {id};
          levels, queue := VisitChildren(levels, id, queue);
        }
      }
    }

    method VisitChildren(given: Levels, id: NodeId, waiting: seq<NodeId>) returns (levels: Levels, queue: seq<NodeId>)
      ensures levels == Raise(graph, given, id, ChildrenOf(graph, id))
      ensures queue == waiting + Present(graph, ChildrenOf(graph, id))
    {
      hide Has, ChildrenOf, Raise, Present;
      NoChildren(graph, given, id);
      levels, queue := given, waiting;
      var children := ChildrenOf(graph, id);
      for i := 0 to |children|
        invariant levels == Raise(graph, given, id, children[..i])
        invariant queue == waiting + Present(graph, children[..i])
      {
        OneMoreChild(graph, given, id, children[..i], children[i]);
        assert children[..i + 1] == children[..i] + [children[i]];
        var child := children[i];
        if Has(graph, child) {
          var far := LevelOf(levels, id) + 1;
          levels := Set(levels, child, if LevelOf(levels, child) < far then far else LevelOf(levels, child));
          queue := queue + [child];
        }
      }
      assert children[..|children|] == children;
    }

    method SpreadLevels(levels: Levels) returns (result: map<NodeId, Place>)
      requires levels.Valid()
      ensures result == Placed(graph, places, levels)
    {
      hide Dict.Valid, PlaceOf, Has, PlacedFor;
      var groups := GroupByLevel(levels);
      result := places;
      ghost var done: set<NodeId> := {};
      PlacedForNone(graph, places, levels);
      for k := 0 to |groups.keys|
        invariant result == PlacedFor(graph, places, levels, done) && done <= levels.vals.Keys
        invariant forall id <- levels.vals :: LevelOf(levels, id) in groups.keys[..k] ==> id in done
      {
        var level := groups.keys[k];
        done, result := SpreadGroup(levels, level, GroupAt(groups, level), done, result);
        assert groups.keys[..k + 1] == groups.keys[..k] + [level];
      }
      AllGrouped(levels, groups);
      assert groups.keys[..|groups.keys|] == groups.keys;
      assert done == levels.vals.Keys;
    }

    method GroupByLevel(levels: Levels) returns (groups: Dict<nat, seq<NodeId>>)
      ensures groups.Valid() && GroupsAre(groups, levels, levels.keys)
    {
      hide Dict.Valid, GroupsAre;
      NotGrouped(levels);
      groups := Empty();
      for i := 0 to |levels.keys|
        invariant groups.Valid() && GroupsAre(groups, levels, levels.keys[..i])
      {
        GroupsNext(groups, levels, levels.keys[..i], levels.keys[i]);
        assert levels.keys[..i + 1] == levels.keys[..i] + [levels.keys[i]];
        var level := LevelOf(levels, levels.keys[i]);
        groups := Set(groups, level, GroupAt(groups, level) + [levels.keys[i]]);
      }
      assert levels.keys[..|levels.keys|] == levels.keys;
    }

    /** Spreads one level vertically. */
    method SpreadGroup(levels: Levels, level: nat, ids: seq<NodeId>, ghost before: set<NodeId>, given: map<NodeId, Place>)
      returns (ghost done: set<NodeId>, result: map<NodeId, Place>)
      requires levels.Valid() && ids == Group(levels.keys, levels, level) && before <= levels.vals.Keys
      requires given == PlacedFor(graph, places, levels, before)
      ensures result == PlacedFor(graph, places, levels, done)
      ensures before <= done <= levels.vals.Keys && forall id <- levels.vals :: LevelOf(levels, id) == level ==> id in done
    {
      hide PlaceOf, Has, PlacedFor, Group, PlaceAt;
      done, result := before, given;
      for i := 0 to |ids|
        invariant result == PlacedFor(graph, places, levels, done)
        invariant before <= done <= levels.vals.Keys && forall j :: 0 <= j < i ==> ids[j] in done
      {
        PlacedOneMore(graph, places, levels, done, ids[i]);
        PlaceInGroup(levels, level, i);
        GroupMember(levels.keys, levels, level, ids[i]);
        if Has(graph, ids[i]) { result := result[ids[i] := PlaceAt(level, i, |ids|)]; }
        done := done + {ids[i]};
      }
      forall id | id in levels.vals && LevelOf(levels, id) == level ensures id in done {
        GroupMember(levels.keys, levels, level, id);
      }
    }
  }

  function GroupAt(groups: Dict<nat, seq<NodeId>>, level: nat): seq<NodeId> {
    if level in groups.vals then groups.vals[level] else []
  }

  ghost predicate GroupsAre(groups: Dict<nat, seq<NodeId>>, levels: Levels, keys: seq<NodeId>) {
    forall level: nat :: GroupAt(groups, level) == Group(keys, levels, level)
  }

  lemma NotGrouped(levels: Levels)
    ensures GroupsAre(Empty(), levels, [])
  {
  }

  lemma GroupsNext(groups: Dict<nat, seq<NodeId>>, levels: Levels, keys: seq<NodeId>, id: NodeId)
    requires GroupsAre(groups, levels, keys)
    ensures var level := LevelOf(levels, id); GroupsAre(Set(groups, level, GroupAt(groups, level) + [id]), levels, keys + [id])
  {
    assert (keys + [id])[..|keys|] == keys;
  }

  lemma AllGrouped(levels: Levels, groups: Dict<nat, seq<NodeId>>)
    requires levels.Valid() && groups.Valid() && GroupsAre(groups, levels, levels.keys)
    ensures forall id <- levels.vals :: LevelOf(levels, id) in groups.keys
  {
    forall id | id in levels.vals ensures LevelOf(levels, id) in groups.keys {
      GroupMember(levels.keys, levels, LevelOf(levels, id), id);
      assert GroupAt(groups, LevelOf(levels, id)) != [];
    }
  }

  lemma PlacedForNone(g: Graph, places: map<NodeId, Place>, levels: Levels)
    ensures PlacedFor(g, places, levels, {}) == places
  {
  }

  lemma {:induction false} GapsKeepPlaces(b: Builder, lo: int, hi: int)
    ensures AddGaps(b, lo, hi).places == b.places
    decreases hi - lo
  {
    if lo < hi {
      GapsKeepPlaces(b, lo, hi - 1);
    }
  }

  lemma StructureKeepsPlaces(b: Builder, e: Event)
    ensures Structure(b, e).places == b.places
  {
    hide Handle, AddGaps;
    GapsKeepPlaces(b, b.expectedSeq, e.sequenceNum);
    var g := AddGaps(b, b.expectedSeq, e.sequenceNum);
    HandleKeepsPlaces(g.(expectedSeq := e.sequenceNum + 1, totalEvents := g.totalEvents + 1), e);
  }

  lemma HandleKeepsPlaces(b: Builder, e: Event)
    ensures Handle(b, e).places == b.places
  {
    hide AddNode, EdgesFrom, OpenTools, Take, PhaseKind, Has;
  }
}
