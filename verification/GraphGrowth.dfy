/** What each event adds to the execution graph, and so which nodes the rebuilt graph has. */
module GraphGrowth {
  import opened Base
  import opened Dicts
  import opened Events
  import opened ExecutionGraphs
  import opened GraphLayout
  import opened GraphBuilders
  import opened GraphRebuild

  // ---- One node below others ----

  /** The same nodes, and unless it was there already one more at the end: `id`, of this kind and number. */
  ghost predicate OneMoreNode(past: seq<Node>, next: seq<Node>, id: NodeId, kind: Kind, number: int) {
    if exists n <- past :: n.id == id then SameNodes(next, past)
    else
      && |next| == |past| + 1 && SameNodes(next[..|past|], past)
      && next[|past|].id == id && next[|past|].kind == kind && next[|past|].sequenceNum == number
  }

  /** The same edges in the same order, and one from each of `parents` to `id`. */
  ghost predicate EdgesTo(past: seq<Edge>, next: seq<Edge>, parents: seq<NodeId>, id: NodeId) {
    && past <= next
    && forall x :: x in next <==> x in past || (x.target == id && x.source in parents)
  }

  ghost predicate Adds(b: Builder, r: Builder, id: NodeId, kind: Kind, number: int) {
    && OneMoreNode(b.graph.nodes, r.graph.nodes, id, kind, number)
    && EdgesTo(b.graph.edges, r.graph.edges, b.lastPhase, id)
  }

  lemma EdgesToNext(past: seq<Edge>, mid: seq<Edge>, next: seq<Edge>, front: seq<NodeId>, p: NodeId, id: NodeId)
    requires EdgesTo(past, mid, front, id) && next == if Edge(p, id) in mid then mid else mid + [Edge(p, id)]
    ensures EdgesTo(past, next, front + [p], id)
  {
  }

  lemma AddEdgeOne(g: Graph, e: Edge)
    ensures AddEdge(g, e).edges == if e in g.edges then g.edges else g.edges + [e]
  {
  }

  lemma {:induction false} EdgesFromMeaning(g: Graph, parents: seq<NodeId>, id: NodeId)
    ensures var r := EdgesFrom(g, parents, id); SameNodes(r.nodes, g.nodes) && EdgesTo(g.edges, r.edges, parents, id)
  {
    hide AddEdge, EdgesTo;
    if |parents| > 0 {
      var front, p := parents[..|parents| - 1], parents[|parents| - 1];
      EdgesFromMeaning(g, front, id);
      var h := EdgesFrom(g, front, id);
      AddEdgeSameNodes(h, Edge(p, id));
      AddEdgeOne(h, Edge(p, id));
      EdgesToNext(g.edges, h.edges, AddEdge(h, Edge(p, id)).edges, front, p, id);
      assert parents == front + [p];
    } else {
      NoEdgesTo(g.edges, id);
    }
  }

  lemma NoEdgesTo(edges: seq<Edge>, id: NodeId)
    ensures EdgesTo(edges, edges, [], id)
  {
  }

  lemma {:induction false} IndexFinds(nodes: seq<Node>, id: NodeId)
    ensures Index(nodes, id) < |nodes| <==> exists n <- nodes :: n.id == id
  {
    if |nodes| > 0 && nodes[0].id != id {
      IndexFinds(nodes[1..], id);
      assert nodes == [nodes[0]] + nodes[1..];
    }
  }

  lemma AttachAdds(b: Builder, n: Node)
    ensures var r := Attach(b, n); Adds(b, r, n.id, n.kind, n.sequenceNum) && r == b.(graph := r.graph)
  {
    hide EdgesFrom, Index;
    IndexFinds(b.graph.nodes, n.id);
    EdgesFromMeaning(AddNode(b.graph, n), b.lastPhase, n.id);
  }

  // ---- Open tool calls ----

  /** The positions of the open tool calls, in order, and all of them. */
  ghost predicate OpenAt(nodes: seq<Node>, ids: seq<NodeId>, at: seq<nat>) {
    && |at| == |ids|
    && (forall i, j :: 0 <= i < j < |at| ==> at[i] < at[j])
    && (forall i :: 0 <= i < |at| ==> at[i] < |nodes| && ids[i] == nodes[at[i]].id)
    && forall k :: 0 <= k < |nodes| ==> (k in at <==> nodes[k].kind == ToolCall && |nodes[k].children| == 0)
  }

  lemma OpenAtNext(nodes: seq<Node>, ids: seq<NodeId>, at: seq<nat>, n: Node)
    requires OpenAt(nodes, ids, at)
    ensures var open := n.kind == ToolCall && |n.children| == 0;
            OpenAt(nodes + [n], ids + (if open then [n.id] else []), at + if open then [|nodes|] else [])
  {
    assert |nodes| !in at;
  }

  lemma {:induction false} OpenToolsMeaning(nodes: seq<Node>) returns (at: seq<nat>)
    ensures OpenAt(nodes, OpenTools(nodes), at)
    decreases |nodes|
  {
    at := [];
    if |nodes| > 0 {
      hide OpenAt;
      var front, n := nodes[..|nodes| - 1], nodes[|nodes| - 1];
      at := OpenToolsMeaning(front);
      OpenAtNext(front, OpenTools(front), at, n);
      assert nodes == front + [n];
      at := at + if n.kind == ToolCall && |n.children| == 0 then [|front|] else [];
      assert OpenTools(front) + [] == OpenTools(front);
    } else {
      NoneOpen();
    }
  }

  lemma NoneOpen()
    ensures OpenAt([], OpenTools([]), [])
  {
  }

  // ---- One event ----

  /** The node that an event of its kind is shown as. */
  function NodeFor(e: Event): Option<NodeId> {
    var k := e.sequenceNum;
    match e.eventType
    case InvestigationStarted => Some(InvestigationId(if |e.investigation| > 8 then e.investigation[..8] else e.investigation))
    case IncidentClassified => Some(SeqId(Classification, k))
    case PlaybookSelected => Some(SeqId(Playbook, k))
    case ToolCalled => Some(ToolId(k, if |e.worker| > 6 then e.worker[..6] else e.worker))
    case ToolResponded | ToolFailed | ToolTimeout => None
    case LlmInvoked => Some(SeqId(LlmInference, k))
    case HypothesisScored => Some(SeqId(Hypothesis, k))
    case HypothesisSelected => Some(SeqId(Decision, k))
    case MemoryQueried => Some(SeqId(MemoryQuery, k))
    case ControlRequested => Some(SeqId(Control, k))
    case RcaGenerated => Some(SeqId(Rca, k))
    case OtherEvent => None
  }

  /** The node is added below the last phase and begins a phase of its own. */
  ghost predicate BeginsPhase(b: Builder, r: Builder, kind: Kind, number: int) {
    && Adds(b, r, SeqId(kind, number), kind, number)
    && r == b.(graph := r.graph, lastPhase := [SeqId(kind, number)])
  }

  /** What each kind of event adds, and who are the parents of what follows. */
  ghost predicate HandledAs(b: Builder, e: Event, r: Builder) {
    var k := e.sequenceNum;
    match e.eventType
    case InvestigationStarted =>
      var id := NodeFor(e).value;
      && OneMoreNode(b.graph.nodes, r.graph.nodes, id, Investigation, k) && r.graph.edges == b.graph.edges
      && r == b.(graph := r.graph, lastPhase := [id])
    case IncidentClassified => BeginsPhase(b, r, Classification, k)
    case PlaybookSelected => BeginsPhase(b, r, Playbook, k)
    case LlmInvoked => BeginsPhase(b, r, LlmInference, k)
    case HypothesisScored => BeginsPhase(b, r, Hypothesis, k)
    case HypothesisSelected => BeginsPhase(b, r, Decision, k)
    case ControlRequested => BeginsPhase(b, r, Control, k)
    case RcaGenerated => BeginsPhase(b, r, Rca, k)
    case MemoryQueried => Adds(b, r, SeqId(MemoryQuery, k), MemoryQuery, k) && r == b.(graph := r.graph)
    case ToolCalled =>
      var id := NodeFor(e).value;
      && Adds(b, r, id, ToolCall, k)
      && r == b.(graph := r.graph, toolCalls := if e.receiptId == "" then b.toolCalls else b.toolCalls[e.receiptId := id])
    case ToolResponded => PhaseOfTools(b, e.receiptId, r)
    case ToolFailed => PhaseOfTools(b, e.receiptId, r)
    case ToolTimeout => PhaseOfTools(b, e.receiptId, r)
    case OtherEvent => r == b
  }

  /** If the call is known, the open tool calls are the parents of what follows. */
  ghost predicate PhaseOfTools(b: Builder, receipt: string, r: Builder) {
    var nodes := b.graph.nodes;
    if receipt in b.toolCalls && exists n <- nodes :: n.id == b.toolCalls[receipt] then
      && r == b.(lastPhase := r.lastPhase)
      && exists at: seq<nat> :: OpenAt(nodes, r.lastPhase, at)
    else r == b
  }

  /** Every event adds just what its kind says. */
  lemma EventAdds(b: Builder, e: Event)
    ensures HandledAs(b, e, Handle(b, e))
  {
    hide Attach, Adds, OneMoreNode, PhaseOfTools, Respond, Has;
    var k := e.sequenceNum;
    if e.eventType == InvestigationStarted {
      StartAdds(b, InvestigationId(Take(e.investigation, 8)), k);
    } else if e.eventType == ToolCalled {
      var n := NewNode(ToolId(k, Take(e.worker, 6)), ToolCall, k);
      AttachAdds(b, n);
      AddsGraphOnly(b, Attach(b, n), Handle(b, e), n.id, ToolCall, k);
    } else if e.eventType in {ToolResponded, ToolFailed, ToolTimeout} {
      RespondMeaning(b, e);
    } else if e.eventType == MemoryQueried {
      AttachAdds(b, NewNode(SeqId(MemoryQuery, k), MemoryQuery, k));
    } else if e.eventType != OtherEvent {
      var kind := PhaseKind(e.eventType).value;
      AttachAdds(b, NewNode(SeqId(kind, k), kind, k));
      PhaseAdds(b, Attach(b, NewNode(SeqId(kind, k), kind, k)), kind, k);
    }
  }

  lemma AddsGraphOnly(b: Builder, a: Builder, r: Builder, id: NodeId, kind: Kind, k: int)
    requires Adds(b, a, id, kind, k) && r.graph == a.graph
    ensures Adds(b, r, id, kind, k)
  {
  }

  lemma PhaseAdds(b: Builder, a: Builder, kind: Kind, k: int)
    requires Adds(b, a, SeqId(kind, k), kind, k) && a == b.(graph := a.graph)
    ensures BeginsPhase(b, a.(lastPhase := [SeqId(kind, k)]), kind, k)
  {
  }

  lemma StartAdds(b: Builder, id: NodeId, k: int)
    ensures OneMoreNode(b.graph.nodes, AddNode(b.graph, NewNode(id, Investigation, k)).nodes, id, Investigation, k)
  {
    hide Index;
    IndexFinds(b.graph.nodes, id);
  }

  lemma RespondMeaning(b: Builder, e: Event)
    ensures PhaseOfTools(b, e.receiptId, Respond(b, e))
  {
    hide OpenTools, Index, OpenAt;
    var at := OpenToolsMeaning(b.graph.nodes);
    if e.receiptId in b.toolCalls {
      IndexFinds(b.graph.nodes, b.toolCalls[e.receiptId]);
    }
  }

  // ---- Missing numbers ----

  /** Placeholders for the numbers from `lo` to below `hi`, each below the last phase. */
  ghost predicate Filled(b: Builder, r: Builder, lo: int, hi: int) {
    && r == b.(graph := r.graph, gaps := r.gaps)
    && (forall id :: Named(r.graph, id) <==> Named(b.graph, id) || (id.GapId? && lo <= id.number < hi))
    && (b.graph.edges <= r.graph.edges)
    && forall x :: x in r.graph.edges <==>
         x in b.graph.edges || (x.target.GapId? && lo <= x.target.number < hi && x.source in b.lastPhase)
  }

  lemma {:induction false} GapsAdd(b: Builder, lo: int, hi: int)
    ensures Filled(b, AddGaps(b, lo, hi), lo, hi)
    decreases hi - lo
  {
    if lo < hi {
      hide Attach, Filled, Adds;
      var before := AddGaps(b, lo, hi - 1);
      GapsAdd(b, lo, hi - 1);
      var n := NewNode(GapId(hi - 1), ToolCall, hi - 1);
      AttachAdds(before, n);
      AddsGraphOnly(before, Attach(before, n), AddGaps(b, lo, hi), n.id, ToolCall, hi - 1);
      OneMoreGap(b, before, AddGaps(b, lo, hi), lo, hi);
    } else {
      NothingFilled(b, lo, hi);
    }
  }

  lemma NothingFilled(b: Builder, lo: int, hi: int)
    requires hi <= lo
    ensures Filled(b, b, lo, hi)
  {
  }

  lemma OneMoreGap(b: Builder, c: Builder, r: Builder, lo: int, hi: int)
    requires Filled(b, c, lo, hi - 1) && lo < hi && Adds(c, r, GapId(hi - 1), ToolCall, hi - 1)
    requires r == c.(graph := r.graph, gaps := r.gaps)
    ensures Filled(b, r, lo, hi)
  {
    hide OneMoreNode, Named;
    forall id ensures Named(r.graph, id) <==> Named(c.graph, id) || id == GapId(hi - 1) {
      OneMoreNamed(c.graph, r.graph, GapId(hi - 1), ToolCall, hi - 1, id);
    }
  }

  /** One event: first the missing numbers before it, then what its kind says. */
  lemma ProcessAdds(b: Builder, e: Event) returns (c: Builder)
    ensures Filled(b, c.(expectedSeq := b.expectedSeq, totalEvents := b.totalEvents), b.expectedSeq, e.sequenceNum)
    ensures c.expectedSeq == e.sequenceNum + 1 && c.totalEvents == b.totalEvents + 1
    ensures HandledAs(c, e, Process(b, e).(places := b.places))
  {
    hide AddGaps, Handle, HandledAs, FinalLevels, Placed, Filled;
    var g := AddGaps(b, b.expectedSeq, e.sequenceNum);
    GapsAdd(b, b.expectedSeq, e.sequenceNum);
    c := g.(expectedSeq := e.sequenceNum + 1, totalEvents := g.totalEvents + 1);
    EventAdds(c, e);
    StructureKeepsPlaces(b, e);
    FilledOnly(b, g, b.expectedSeq, e.sequenceNum);
    assert Process(b, e).(places := b.places) == Handle(c, e);
  }

  lemma FilledOnly(b: Builder, r: Builder, lo: int, hi: int)
    requires Filled(b, r, lo, hi)
    ensures r == b.(graph := r.graph, gaps := r.gaps)
  {
  }

  ghost predicate Named(g: Graph, id: NodeId) {
    exists n <- g.nodes :: n.id == id
  }

  lemma SameNamed(a: seq<Node>, b: seq<Node>, id: NodeId)
    requires SameNodes(a, b)
    ensures (exists n <- a :: n.id == id) ==> exists n <- b :: n.id == id
  {
    if n :| n in a && n.id == id {
      var i :| 0 <= i < |a| && a[i] == n;
      assert b[i] in b;
    }
  }

  lemma OneMoreNamed(g: Graph, h: Graph, next: NodeId, kind: Kind, number: int, id: NodeId)
    requires OneMoreNode(g.nodes, h.nodes, next, kind, number)
    ensures Named(h, id) <==> Named(g, id) || id == next
  {
    if Named(g, next) {
      SameNamed(g.nodes, h.nodes, id);
      SameNamed(h.nodes, g.nodes, id);
    } else {
      var front := h.nodes[..|g.nodes|];
      assert h.nodes == front + [h.nodes[|g.nodes|]];
      SameNamed(g.nodes, front, id);
      SameNamed(front, g.nodes, id);
      assert h.nodes[|g.nodes|] in h.nodes;
    }
  }

  // ---- The rebuilt graph ----

  ghost predicate Shown(events: seq<Event>, id: NodeId) {
    exists e <- events :: NodeFor(e) == Some(id)
  }

  lemma HandledNames(b: Builder, e: Event, r: Builder, id: NodeId)
    requires HandledAs(b, e, r)
    ensures r.gaps == b.gaps && (Named(r.graph, id) <==> Named(b.graph, id) || NodeFor(e) == Some(id))
  {
    hide OneMoreNode, Named;
    var k := e.sequenceNum;
    match e.eventType
    case InvestigationStarted => OneMoreNamed(b.graph, r.graph, NodeFor(e).value, Investigation, k, id);
    case ToolCalled => OneMoreNamed(b.graph, r.graph, NodeFor(e).value, ToolCall, k, id);
    case MemoryQueried => OneMoreNamed(b.graph, r.graph, SeqId(MemoryQuery, k), MemoryQuery, k, id);
    case IncidentClassified => OneMoreNamed(b.graph, r.graph, SeqId(Classification, k), Classification, k, id);
    case PlaybookSelected => OneMoreNamed(b.graph, r.graph, SeqId(Playbook, k), Playbook, k, id);
    case LlmInvoked => OneMoreNamed(b.graph, r.graph, SeqId(LlmInference, k), LlmInference, k, id);
    case HypothesisScored => OneMoreNamed(b.graph, r.graph, SeqId(Hypothesis, k), Hypothesis, k, id);
    case HypothesisSelected => OneMoreNamed(b.graph, r.graph, SeqId(Decision, k), Decision, k, id);
    case ControlRequested => OneMoreNamed(b.graph, r.graph, SeqId(Control, k), Control, k, id);
    case RcaGenerated => OneMoreNamed(b.graph, r.graph, SeqId(Rca, k), Rca, k, id);
    case _ =>
  }

  lemma ProcessNames(b: Builder, e: Event, id: NodeId)
    ensures Named(Process(b, e).graph, id) <==>
            || Named(b.graph, id) || NodeFor(e) == Some(id)
            || (id.GapId? && b.expectedSeq <= id.number < e.sequenceNum)
  {
    hide Process, HandledAs, Named, NodeFor;
    var c := ProcessAdds(b, e);
    HandledNames(c, e, Process(b, e).(places := b.places), id);
  }

  lemma ShownNext(events: seq<Event>, e: Event, id: NodeId)
    ensures Shown(events + [e], id) <==> Shown(events, id) || NodeFor(e) == Some(id)
  {
    hide NodeFor;
    if NodeFor(e) == Some(id) {
      assert e in events + [e];
    }
    if f :| f in events && NodeFor(f) == Some(id) {
      assert f in events + [e];
    }
  }

  /** One more event: its own node, and placeholders for what is now missing. */
  lemma NamesNext(b: Builder, front: seq<Event>, e: Event, id: NodeId)
    requires Sequenced(front + [e]) && b.expectedSeq == if front == [] then 0 else front[|front| - 1].sequenceNum + 1
    requires Named(b.graph, id) <==> Shown(front, id) || (id.GapId? && Missing(front, id.number))
    ensures Named(Process(b, e).graph, id) <==> Shown(front + [e], id) || (id.GapId? && Missing(front + [e], id.number))
  {
    hide Process, NodeFor, Named, Missing, Shown, Sequenced;
    ShownNext(front, e, id);
    ProcessNames(b, e, id);
    if id.GapId? {
      MissingNext(front, e, id.number);
    }
  }

  lemma NothingNamed(id: NodeId)
    ensures !Named(NewBuilder().graph, id) && !Shown([], id) && forall k :: !Missing([], k)
  {
  }

  lemma {:induction false} ProcessAllNames(events: seq<Event>, id: NodeId)
    requires Sequenced(events)
    ensures Named(ProcessAll(NewBuilder(), events).graph, id) <==>
            Shown(events, id) || (id.GapId? && Missing(events, id.number))
  {
    hide Process, Named, Missing, GapsAre, Shown, NewBuilder;
    if |events| > 0 {
      var front, e := events[..|events| - 1], events[|events| - 1];
      ProcessAllNames(front, id);
      ProcessAllGaps(front);
      assert events == front + [e];
      NamesNext(ProcessAll(NewBuilder(), front), front, e, id);
    } else {
      NothingNamed(id);
    }
  }

  /**
   For any events: the rebuilt graph has a node for each event whose kind is shown, a placeholder
   for each missing number, and no others.
   */
  lemma RebuiltNodes(events: seq<Event>, id: NodeId)
    ensures (exists n <- Rebuild(events).graph.nodes :: n.id == id) <==>
            (exists e <- events :: NodeFor(e) == Some(id)) || (id.GapId? && Missing(events, id.number))
  {
    hide ProcessAll, NodeFor;
    InOrderKeeps(events);
    ProcessAllNames(InOrder(events), id);
    InOrderMember(events);
  }
}
