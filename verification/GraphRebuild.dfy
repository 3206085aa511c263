/** What the graph rebuilt from the events of an investigation is like. */
module GraphRebuild {
  import opened Base
  import opened Dicts
  import opened Events
  import opened ExecutionGraphs
  import opened GraphLayout
  import opened GraphBuilders

  // ---- Order ----

  ghost predicate Below(g: Graph, k: int) {
    forall n <- g.nodes :: n.sequenceNum < k
  }

  ghost predicate AllHas(g: Graph, ids: seq<NodeId>) {
    forall id <- ids :: Has(g, id)
  }

  /** What holds between events that come in sequence. */
  ghost predicate Sound(b: Builder) {
    Ordered(b.graph) && Below(b.graph, b.expectedSeq) && AllHas(b.graph, b.lastPhase)
  }

  lemma SameBelow(g: Graph, h: Graph, k: int)
    requires SameNodes(h.nodes, g.nodes) && Below(g, k)
    ensures Below(h, k)
  {
    forall n <- h.nodes ensures n.sequenceNum < k {
      var i :| 0 <= i < |h.nodes| && h.nodes[i] == n;
      assert g.nodes[i] in g.nodes;
    }
  }

  lemma {:induction false} EdgesFromOrdered(g: Graph, parents: seq<NodeId>, target: NodeId)
    requires Ordered(g) && Has(g, target) && forall p <- parents :: Index(g.nodes, p) < Index(g.nodes, target)
    ensures Ordered(EdgesFrom(g, parents, target)) && SameNodes(EdgesFrom(g, parents, target).nodes, g.nodes)
    decreases |parents|
  {
    hide Index, Ordered, AddEdge;
    if |parents| > 0 {
      var front, p := parents[..|parents| - 1], parents[|parents| - 1];
      EdgesFromOrdered(g, front, target);
      var h := EdgesFrom(g, front, target);
      assert p in parents;
      SameIndex(h.nodes, g.nodes, p);
      SameIndex(h.nodes, g.nodes, target);
      AddEdgeOrdered(h, Edge(p, target));
      AddEdgeSameNodes(h, Edge(p, target));
    }
  }

  /** A node whose number is above all others is new. */
  lemma NewId(g: Graph, id: NodeId, kind: Kind, k: int)
    requires Ordered(g) && Below(g, k) && NumberedBy(NewNode(id, kind, k)) && !id.InvestigationId?
    ensures !Has(g, id)
  {
    if Has(g, id) {
      StoredNumber(g, id, k);
    }
  }

  lemma StoredNumber(g: Graph, id: NodeId, k: int)
    requires Ordered(g) && Below(g, k) && Has(g, id)
    ensures var m := g.nodes[Index(g.nodes, id)]; m.id == id && NumberedBy(m) && m.sequenceNum < k
  {
    var m := g.nodes[Index(g.nodes, id)];
    assert m in g.nodes;
  }

  lemma AttachSound(b: Builder, n: Node)
    requires Ordered(b.graph) && Below(b.graph, n.sequenceNum) && AllHas(b.graph, b.lastPhase)
    requires NumberedBy(n) && n.parents == [] && n.children == [] && !Has(b.graph, n.id)
    ensures Attach(b, n).lastPhase == b.lastPhase
    ensures var g := Attach(b, n).graph;
            Ordered(g) && Below(g, n.sequenceNum + 1) && AllHas(g, b.lastPhase) && Has(g, n.id)
            && forall id :: Has(b.graph, id) ==> Has(g, id)
  {
    var g := AddNode(b.graph, n);
    AddNodeOrdered(b.graph, n);
    hide Ordered, AddEdge, Index, EdgesFrom;
    forall id ensures Index(g.nodes, id) == if Index(b.graph.nodes, id) < |b.graph.nodes| then Index(b.graph.nodes, id) else if n.id == id then |b.graph.nodes| else |b.graph.nodes| + 1 {
      IndexAppend(b.graph.nodes, n, id);
    }
    EdgesFromOrdered(g, b.lastPhase, n.id);
    var r := EdgesFrom(g, b.lastPhase, n.id);
    forall id ensures Index(r.nodes, id) == Index(g.nodes, id) {
      SameIndex(r.nodes, g.nodes, id);
    }
    SameBelow(g, r, n.sequenceNum + 1);
  }

  lemma AddGapSound(b: Builder, k: int)
    requires Ordered(b.graph) && Below(b.graph, k) && AllHas(b.graph, b.lastPhase)
    ensures var r := AddGap(b, k); Ordered(r.graph) && Below(r.graph, k + 1) && AllHas(r.graph, r.lastPhase)
  {
    hide Ordered, Index, EdgesFrom, AddNode, Below;
    NewId(b.graph, GapId(k), ToolCall, k);
    AttachSound(b, NewNode(GapId(k), ToolCall, k));
  }

  lemma {:induction false} AddGapsSound(b: Builder, lo: int, hi: int)
    requires lo <= hi && Ordered(b.graph) && Below(b.graph, lo) && AllHas(b.graph, b.lastPhase)
    ensures var r := AddGaps(b, lo, hi); Ordered(r.graph) && Below(r.graph, hi) && AllHas(r.graph, r.lastPhase)
    decreases hi - lo
  {
    hide Ordered, Below, AllHas, AddGap;
    if lo < hi {
      AddGapsSound(b, lo, hi - 1);
      AddGapSound(AddGaps(b, lo, hi - 1), hi - 1);
    }
  }

  lemma OpenToolsHas(g: Graph)
    ensures AllHas(g, OpenTools(g.nodes))
  {
  }

  lemma HandleSound(b: Builder, e: Event)
    requires Ordered(b.graph) && Below(b.graph, e.sequenceNum) && AllHas(b.graph, b.lastPhase)
    ensures var r := Handle(b, e); Ordered(r.graph) && Below(r.graph, e.sequenceNum + 1) && AllHas(r.graph, r.lastPhase)
  {
    hide Ordered, EdgesFrom, Index, OpenTools, PhaseKind, Take, Has, AddNode, Attach;
    var t, k := e.eventType, e.sequenceNum;
    if t == InvestigationStarted {
      StartSound(b.graph, NewNode(InvestigationId(Take(e.investigation, 8)), Investigation, k));
    } else if t == ToolCalled {
      var id := ToolId(k, Take(e.worker, 6));
      NewId(b.graph, id, ToolCall, k);
      AttachSound(b, NewNode(id, ToolCall, k));
    } else if t == ToolResponded || t == ToolFailed || t == ToolTimeout {
      OpenToolsHas(b.graph);
    } else if t == MemoryQueried {
      NewId(b.graph, SeqId(MemoryQuery, k), MemoryQuery, k);
      AttachSound(b, NewNode(SeqId(MemoryQuery, k), MemoryQuery, k));
    } else if PhaseKind(t) != None {
      var kind := PhaseKind(t).value;
      NewId(b.graph, SeqId(kind, k), kind, k);
      AttachSound(b, NewNode(SeqId(kind, k), kind, k));
    }
  }

  lemma StartSound(g: Graph, n: Node)
    requires Ordered(g) && Below(g, n.sequenceNum) && NumberedBy(n) && n.parents == [] && n.children == []
    ensures var r := AddNode(g, n); Ordered(r) && Below(r, n.sequenceNum + 1) && Has(r, n.id)
  {
    if !Has(g, n.id) {
      AddNodeOrdered(g, n);
      IndexAppend(g.nodes, n, n.id);
    }
  }

  /** In sequence, or the first event of all. */
  ghost predicate ComesNext(b: Builder, e: Event) {
    e.sequenceNum >= b.expectedSeq || b.graph.nodes == []
  }

  lemma ProcessSound(b: Builder, e: Event)
    requires Sound(b) && ComesNext(b, e)
    ensures Sound(Process(b, e)) && Process(b, e).expectedSeq == e.sequenceNum + 1
  {
    hide Ordered, Handle, AddGaps, Placed, FinalLevels;
    if b.expectedSeq <= e.sequenceNum {
      AddGapsSound(b, b.expectedSeq, e.sequenceNum);
    } else {
      NoGaps(b, b.expectedSeq, e.sequenceNum);
    }
    var g := AddGaps(b, b.expectedSeq, e.sequenceNum);
    var c := g.(expectedSeq := e.sequenceNum + 1, totalEvents := g.totalEvents + 1);
    HandleSound(c, e);
    HandleCounts(c, e);
  }

  lemma NoGaps(b: Builder, lo: int, hi: int)
    requires hi <= lo
    ensures AddGaps(b, lo, hi) == b
  {
  }

  lemma HandleCounts(b: Builder, e: Event)
    ensures var r := Handle(b, e); r.expectedSeq == b.expectedSeq && r.totalEvents == b.totalEvents && r.gaps == b.gaps
  {
    hide AddNode, EdgesFrom, OpenTools, Take, PhaseKind, Has;
  }

  /** Rebuilding, before the events are put in order. */
  lemma {:induction false} ProcessAllSound(events: seq<Event>)
    requires Sequenced(events) && DistinctNumbers(events)
    ensures var b := ProcessAll(NewBuilder(), events);
            Sound(b) && b.expectedSeq == if events == [] then 0 else events[|events| - 1].sequenceNum + 1
  {
    hide Process, Sound;
    if |events| > 0 {
      var front, e := events[..|events| - 1], events[|events| - 1];
      ProcessAllSound(front);
      assert front != [] ==> front[|front| - 1].sequenceNum < e.sequenceNum;
      ProcessSound(ProcessAll(NewBuilder(), front), e);
    } else {
      NewSound();
    }
  }

  lemma NewSound()
    ensures Sound(NewBuilder())
  {
  }

  ghost predicate Ascends(g: Graph, e: Edge) {
    && Has(g, e.source) && Has(g, e.target)
    && GetNode(g, e.source).value.sequenceNum < GetNode(g, e.target).value.sequenceNum
  }

  /** A walk along the edges. */
  ghost predicate Walk(g: Graph, p: seq<NodeId>) {
    forall i, j :: 0 <= i < j < |p| && j == i + 1 ==> Edge(p[i], p[j]) in g.edges
  }

  /**
   Whatever the order in which events with different sequence numbers are given: every edge of the
   rebuilt graph leads from a smaller to a larger sequence number, and no walk comes back.
   */
  lemma RebuiltIsAcyclic(events: seq<Event>)
    requires DistinctNumbers(events)
    ensures var g := Rebuild(events).graph;
            && Ordered(g)
            && (forall e <- g.edges :: Ascends(g, e))
            && forall p :: Walk(g, p) && |p| > 1 ==> p[0] != p[|p| - 1]
  {
    InOrderKeeps(events);
    InOrderDistinct(events);
    ProcessAllSound(InOrder(events));
    var g := Rebuild(events).graph;
    EdgesAscend(g);
    hide ProcessAll, InOrder, Ordered;
    forall p | Walk(g, p) && |p| > 1 ensures p[0] != p[|p| - 1] {
      WalkAscends(g, p);
    }
  }

  lemma EdgesAscend(g: Graph)
    requires Ordered(g)
    ensures forall e <- g.edges :: Ascends(g, e)
  {
  }

  lemma {:induction false} WalkAscends(g: Graph, p: seq<NodeId>)
    requires Ordered(g) && Walk(g, p) && |p| > 1
    ensures Index(g.nodes, p[0]) < Index(g.nodes, p[|p| - 1])
    decreases |p|
  {
    hide Index, InSequence, Mirrored;
    assert Edge(p[|p| - 2], p[|p| - 1]) in g.edges;
    if |p| > 2 {
      WalkAscends(g, p[..|p| - 1]);
    }
  }

  // ---- Layout ----

  /** In an ordered graph a path from a root leads to every node. */
  lemma {:induction false} AllReached(g: Graph, i: nat)
    requires Ordered(g) && i < |g.nodes|
    ensures exists n: nat :: PathTo(g, g.nodes[i].id, n)
    decreases i
  {
    hide PathTo;
    var v := g.nodes[i];
    assert NodeMirrored(v, g.edges);
    if v.parents == [] {
      assert Root(g, v.id);
      PathOfNone(g, v.id);
    } else {
      var s := v.parents[0];
      assert s in v.parents && Edge(s, v.id) in g.edges;
      UniqueIndex(g.nodes, i);
      var j := Index(g.nodes, s);
      AllReached(g, j);
      var n: nat :| PathTo(g, g.nodes[j].id, n);
      assert NodeMirrored(g.nodes[j], g.edges);
      assert Child(g, s, v.id);
      PathExtends(g, s, n, v.id);
    }
  }

  /** Every node has a place of its own, in a column that a path from a root accounts for. */
  ghost predicate LaidOut(b: Builder) {
    && b.places.Keys == Ids(b.graph)
    && (forall x <- b.places, y <- b.places :: x != y ==> b.places[x] != b.places[y])
    && forall x <- b.places :: InColumn(b.graph, x, b.places[x])
  }

  /** The column is the length of some path from a root. */
  ghost predicate InColumn(g: Graph, id: NodeId, place: Place) {
    exists n: nat :: PathTo(g, id, n) && place.x == n as real * X_STEP
  }

  lemma PlaceColumn(g: Graph, id: NodeId)
    requires id in FinalLevels(g).vals
    ensures InColumn(g, id, PlaceOf(FinalLevels(g), id))
  {
    hide PathTo, FinalLevels;
    FinalLevelsMeaning(g);
    var levels := FinalLevels(g);
    assert PathTo(g, id, LevelOf(levels, id));
    assert PlaceOf(levels, id).x == LevelOf(levels, id) as real * X_STEP;
  }

  lemma LevelsCover(g: Graph)
    requires Ordered(g)
    ensures FinalLevels(g).Valid() && FinalLevels(g).vals.Keys >= Ids(g)
  {
    hide Ordered, PathTo, FinalLevels;
    FinalLevelsMeaning(g);
    forall id | id in Ids(g) ensures id in FinalLevels(g).vals {
      var i :| 0 <= i < |g.nodes| && g.nodes[i].id == id;
      AllReached(g, i);
    }
  }

  lemma SameIds(g: Graph, h: Graph)
    requires SameNodes(h.nodes, g.nodes)
    ensures Ids(g) <= Ids(h)
  {
    forall id | id in Ids(g) ensures id in Ids(h) {
      var i :| 0 <= i < |g.nodes| && g.nodes[i].id == id;
      assert h.nodes[i] in h.nodes;
    }
  }

  lemma {:induction false} EdgesFromGrows(g: Graph, parents: seq<NodeId>, target: NodeId)
    ensures Ids(g) <= Ids(EdgesFrom(g, parents, target))
    decreases |parents|
  {
    hide AddEdge, Ids;
    if |parents| > 0 {
      var h := EdgesFrom(g, parents[..|parents| - 1], target);
      EdgesFromGrows(g, parents[..|parents| - 1], target);
      AddEdgeSameNodes(h, Edge(parents[|parents| - 1], target));
      SameIds(h, AddEdge(h, Edge(parents[|parents| - 1], target)));
    }
  }

  lemma AttachGrows(b: Builder, n: Node)
    ensures Ids(b.graph) <= Ids(Attach(b, n).graph)
  {
    hide EdgesFrom;
    EdgesFromGrows(AddNode(b.graph, n), b.lastPhase, n.id);
  }

  lemma {:induction false} AddGapsGrows(b: Builder, lo: int, hi: int)
    ensures Ids(b.graph) <= Ids(AddGaps(b, lo, hi).graph)
    decreases hi - lo
  {
    hide Attach, Ids;
    if lo < hi {
      AddGapsGrows(b, lo, hi - 1);
      AttachGrows(AddGaps(b, lo, hi - 1), NewNode(GapId(hi - 1), ToolCall, hi - 1));
    }
  }

  lemma HandleGrows(b: Builder, e: Event)
    ensures Ids(b.graph) <= Ids(Handle(b, e).graph)
  {
    hide Attach, Ids, PhaseKind, Take, OpenTools, Has, AddNode;
    var k := e.sequenceNum;
    AddNodeGrows(b.graph, NewNode(InvestigationId(Take(e.investigation, 8)), Investigation, k));
    AttachGrows(b, NewNode(ToolId(k, Take(e.worker, 6)), ToolCall, k));
    AttachGrows(b, NewNode(SeqId(MemoryQuery, k), MemoryQuery, k));
    if PhaseKind(e.eventType) != None {
      var kind := PhaseKind(e.eventType).value;
      AttachGrows(b, NewNode(SeqId(kind, k), kind, k));
    }
  }

  lemma AddNodeGrows(g: Graph, n: Node)
    ensures Ids(g) <= Ids(AddNode(g, n))
  {
  }

  lemma StructureGrows(b: Builder, e: Event)
    ensures Ids(b.graph) <= Ids(Structure(b, e).graph)
  {
    hide AddGaps, Handle, Ids;
    AddGapsGrows(b, b.expectedSeq, e.sequenceNum);
    var g := AddGaps(b, b.expectedSeq, e.sequenceNum);
    HandleGrows(g.(expectedSeq := e.sequenceNum + 1, totalEvents := g.totalEvents + 1), e);
  }

  lemma ProcessLaysOut(b: Builder, e: Event)
    requires Sound(b) && ComesNext(b, e) && b.places.Keys <= Ids(b.graph)
    ensures LaidOut(Process(b, e))
  {
    hide Ordered, FinalLevels, Structure, PlaceOf, Has, Ids, Dict.Valid, InColumn;
    ProcessSound(b, e);
    var g := Structure(b, e).graph;
    var levels := FinalLevels(g);
    LevelsCover(g);
    StructureGrows(b, e);
    forall id ensures Has(g, id) <==> id in Ids(g) {
      HasIsIds(g, id);
    }
    forall x, y | x in Ids(g) && y in Ids(g) && x != y ensures PlaceOf(levels, x) != PlaceOf(levels, y) {
      PlacesDiffer(levels, x, y);
    }
    forall x | x in Ids(g) ensures InColumn(g, x, PlaceOf(levels, x)) {
      PlaceColumn(g, x);
    }
  }

  lemma {:induction false} AllLaidOut(events: seq<Event>)
    requires Sequenced(events) && DistinctNumbers(events)
    ensures LaidOut(ProcessAll(NewBuilder(), events))
  {
    if |events| > 0 {
      hide Process, Sound, LaidOut;
      var front, e := events[..|events| - 1], events[|events| - 1];
      AllLaidOut(front);
      LaidOutKeys(ProcessAll(NewBuilder(), front));
      ProcessAllSound(front);
      assert front != [] ==> front[|front| - 1].sequenceNum < e.sequenceNum;
      ProcessLaysOut(ProcessAll(NewBuilder(), front), e);
    }
  }

  lemma LaidOutKeys(b: Builder)
    requires LaidOut(b)
    ensures b.places.Keys <= Ids(b.graph)
  {
  }

  /** Every node of a rebuilt graph is laid out, in a column a path from a root accounts for, and no two in the same place. */
  lemma RebuiltIsLaidOut(events: seq<Event>)
    requires DistinctNumbers(events)
    ensures LaidOut(Rebuild(events))
  {
    hide LaidOut, ProcessAll;
    InOrderKeeps(events);
    InOrderDistinct(events);
    AllLaidOut(InOrder(events));
  }

  // ---- Gaps ----

  /** Missing: below some number, and not below all of them unless it is at least 0. */
  ghost predicate Missing(events: seq<Event>, k: int) {
    && (forall e <- events :: e.sequenceNum != k)
    && (exists e <- events :: k < e.sequenceNum)
    && (0 <= k || exists e <- events :: e.sequenceNum < k)
  }

  ghost predicate GapsAre(events: seq<Event>, gaps: seq<int>) {
    && (forall i, j :: 0 <= i < j < |gaps| ==> gaps[i] < gaps[j])
    && forall k :: k in gaps <==> Missing(events, k)
  }

  lemma {:induction false} AddGapsGaps(b: Builder, lo: int, hi: int)
    ensures var r := AddGaps(b, lo, hi);
            && r.totalEvents == b.totalEvents
            && |r.gaps| == |b.gaps| + (if lo < hi then hi - lo else 0)
            && r.gaps[..|b.gaps|] == b.gaps
            && forall i :: |b.gaps| <= i < |r.gaps| ==> r.gaps[i] == lo + i - |b.gaps|
    decreases hi - lo
  {
    hide AddEdge, AddNode, EdgesFrom;
    if lo < hi {
      AddGapsGaps(b, lo, hi - 1);
    }
  }

  /** What one more event adds to the gaps. */
  lemma GapsNext(events: seq<Event>, e: Event, gaps: seq<int>, more: seq<int>, expected: int)
    requires Sequenced(events + [e]) && GapsAre(events, gaps)
    requires expected == if events == [] then 0 else events[|events| - 1].sequenceNum + 1
    requires |more| == (if expected < e.sequenceNum then e.sequenceNum - expected else 0)
    requires forall i :: 0 <= i < |more| ==> more[i] == expected + i
    ensures GapsAre(events + [e], gaps + more)
  {
    hide Missing;
    var all := events + [e];
    assert all[..|events|] == events;
    forall k | Missing(events, k) ensures k < expected && k < e.sequenceNum {
      MissingIsBelow(all, |events|, k);
    }
    forall i | 0 <= i < |gaps| ensures gaps[i] < expected {
      assert gaps[i] in gaps;
    }
    forall k ensures k in more <==> expected <= k < e.sequenceNum {
      if expected <= k < e.sequenceNum {
        assert more[k - expected] == k;
      }
    }
    forall k ensures k in gaps + more <==> Missing(all, k) {
      MissingNext(events, e, k);
    }
  }

  lemma MissingIsBelow(all: seq<Event>, n: nat, k: int)
    requires Sequenced(all) && n == |all| - 1 && Missing(all[..n], k)
    ensures n > 0 && k < all[n - 1].sequenceNum <= all[n].sequenceNum
  {
    var e :| e in all[..n] && k < e.sequenceNum;
    var i :| 0 <= i < n && all[i] == e;
  }

  lemma MissingNext(events: seq<Event>, e: Event, k: int)
    requires Sequenced(events + [e])
    ensures var expected := if events == [] then 0 else events[|events| - 1].sequenceNum + 1;
            Missing(events + [e], k) <==> Missing(events, k) || expected <= k < e.sequenceNum
  {
    var all := events + [e];
    assert all[|events|] == e;
    forall i | 0 <= i < |events| ensures all[i] in all && all[i] in events && all[i].sequenceNum <= e.sequenceNum {
    }
    assert e in all;
    if events != [] {
      var last := events[|events| - 1];
      forall f | f in events ensures f.sequenceNum <= last.sequenceNum && f in all {
        var i :| 0 <= i < |events| && events[i] == f;
        assert all[i] == f && all[|events| - 1] == last;
      }
      assert last in events;
      if Missing(all, k) && k < last.sequenceNum {
        assert Missing(events, k);
      }
    }
  }

  lemma {:induction false} ProcessAllGaps(events: seq<Event>)
    requires Sequenced(events)
    ensures var b := ProcessAll(NewBuilder(), events);
            && b.totalEvents == |events| && GapsAre(events, b.gaps)
            && b.expectedSeq == if events == [] then 0 else events[|events| - 1].sequenceNum + 1
  {
    hide Handle, AddGaps, GapsAre, Placed, FinalLevels;
    if |events| > 0 {
      var front, e := events[..|events| - 1], events[|events| - 1];
      ProcessAllGaps(front);
      var b := ProcessAll(NewBuilder(), front);
      var g := AddGaps(b, b.expectedSeq, e.sequenceNum);
      AddGapsGaps(b, b.expectedSeq, e.sequenceNum);
      HandleCounts(g.(expectedSeq := e.sequenceNum + 1, totalEvents := g.totalEvents + 1), e);
      assert events == front + [e];
      GapsNext(front, e, b.gaps, g.gaps[|b.gaps|..], b.expectedSeq);
      assert g.gaps == b.gaps + g.gaps[|b.gaps|..];
    } else {
      NoGapsYet();
    }
  }

  lemma NoGapsYet()
    ensures GapsAre([], [])
  {
  }

  /**
   For any events, repeated and negative numbers included: the rebuilt graph counts every event, and
   its gaps are exactly the missing numbers, each once and ascending.
   */
  lemma RebuiltGaps(events: seq<Event>)
    ensures var b := Rebuild(events); b.totalEvents == |events| && GapsAre(events, b.gaps)
  {
    hide ProcessAll;
    InOrderKeeps(events);
    ProcessAllGaps(InOrder(events));
    InOrderMember(events);
    forall k ensures Missing(events, k) <==> Missing(InOrder(events), k) {
    }
  }

  method RebuildFromEvents(events: seq<Event>) returns (b: GraphBuilder)
    ensures fresh(b) && b.State() == Rebuild(events)
  {
    hide Process, InOrder;
    b := new GraphBuilder();
    var sorted := InOrder(events);
    for i := 0 to |sorted|
      invariant fresh(b) && b.State() == ProcessAll(NewBuilder(), sorted[..i])
    {
      assert sorted[..i + 1][..i] == sorted[..i];
      b.ProcessEvent(sorted[i]);
    }
    assert sorted[..|sorted|] == sorted;
  }
}
