/** The causal graph: a dictionary of services and one of weighted edges, updated in place. */
module CausalGraphs {
  import opened BlastRadius
  import opened BlastSearch
  import opened Dicts
  import opened Rounding
  import opened Sorting

  /** `int(x)`: towards zero. */
  function Truncate(x: real): int {
    if x >= 0.0 then x.Floor else -((-x).Floor)
  }

  /** The edges after one recorded co-failure. */
  function Recorded(g: Edges, source: string, target: string, ms: int, now: string): Edges {
    var key := (source, target);
    if key !in g.vals then Set(g, key, CausalEdge(source, target, "calls", 0.5, 0.1, ms, 1, now))
    else
      var e := g.vals[key];
      Set(g, key, e.(
        failureCorrelation := NextCorrelation(e.failureCorrelation),
        avgPropagationMs := Truncate(0.3 * ms as real + (1.0 - 0.3) * e.avgPropagationMs as real),
        observedCount := e.observedCount + 1,
        lastUpdated := now))
  }

  ghost predicate WithinCeiling(g: Edges) {
    forall k <- g.vals.Keys :: 0.0 <= g.vals[k].failureCorrelation <= CEILING
  }

  /** Recorded co-failures, one after the other. */
  function RecordedAll(g: Edges, reports: seq<(string, string, int, string)>): Edges {
    if |reports| == 0 then g
    else
      var (source, target, ms, now) := reports[|reports| - 1];
      Recorded(RecordedAll(g, reports[..|reports| - 1]), source, target, ms, now)
  }

  lemma RecordedOnce(g: Edges, source: string, target: string, ms: int, now: string)
    requires ValidEdges(g) && WithinCeiling(g)
    ensures var r := Recorded(g, source, target, ms, now);
            && ValidEdges(r) && WithinCeiling(r)
            && (forall k <- g.vals.Keys :: k in r.vals)
            && (forall k <- g.vals.Keys :: k != (source, target) ==> r.vals[k] == g.vals[k])
            && ((source, target) in g.vals ==> r.vals[(source, target)].failureCorrelation ==
                                               NextCorrelation(g.vals[(source, target)].failureCorrelation))
  {
    if (source, target) in g.vals {
      UpdateBounds(g.vals[(source, target)].failureCorrelation);
    }
  }

  /** Whatever co-failures are recorded, correlations stay within the ceiling and none is lowered. */
  lemma {:induction false} RecordingKeeps(g: Edges, reports: seq<(string, string, int, string)>)
    requires ValidEdges(g) && WithinCeiling(g)
    ensures var r := RecordedAll(g, reports);
            && ValidEdges(r) && WithinCeiling(r)
            && forall k <- g.vals.Keys :: k in r.vals && r.vals[k].failureCorrelation >= g.vals[k].failureCorrelation
    decreases |reports|
  {
    if |reports| > 0 {
      hide Recorded, Round4, NextCorrelation;
      var h := RecordedAll(g, reports[..|reports| - 1]);
      RecordingKeeps(g, reports[..|reports| - 1]);
      var (source, target, ms, now) := reports[|reports| - 1];
      RecordedOnce(h, source, target, ms, now);
      if (source, target) in g.vals {
        UpdateBounds(h.vals[(source, target)].failureCorrelation);
      }
    }
  }

  /** So the blast radius of every service can be computed after any number of recordings. */
  lemma RecordedGraphsTerminate(g: Edges, reports: seq<(string, string, int, string)>, origin: string)
    requires ValidEdges(g) && WithinCeiling(g)
    ensures ValidEdges(RecordedAll(g, reports))
    ensures exists m: nat :: After(RecordedAll(g, reports), origin, Round4, m).queue == []
  {
    hide Round4;
    RecordingKeeps(g, reports);
    Round4IsRounding();
    BelowOneFades(RecordedAll(g, reports), origin);
    SearchTerminates(RecordedAll(g, reports), origin, Round4, 0.00005);
  }

  // ---- The list of affected services ----

  /** A stable sort, most probable first. */
  function Sorted(s: seq<Entry>): seq<Entry> {
    SortBy((e: Entry) => -e.probability, s)
  }

  ghost predicate Descending(s: seq<Entry>) {
    forall i, j :: 0 <= i < j < |s| ==> s[i].probability >= s[j].probability
  }

  datatype ServiceNode = ServiceNode(
    displayName: string, team: string, tier: int, health: real, alertCount: int, lastIncident: string, technologies: seq<string>)

  datatype BlastRadiusResult = BlastRadiusResult(originService: string, affected: seq<Entry>, totalAffected: nat)

  class CausalGraph {
    var nodes: map<string, ServiceNode>
    var edges: Edges

    ghost predicate Valid()
      reads this
    {
      ValidEdges(edges)
    }

    constructor (nodes: map<string, ServiceNode>, edges: Edges)
      requires ValidEdges(edges)
      ensures Valid() && this.nodes == nodes && this.edges == edges
    {
      this.nodes := nodes;
      this.edges := edges;
    }

    /** The lists of edges by source. */
    method Adjacency() returns (adj: map<string, seq<CausalEdge>>)
      requires Valid()
      ensures forall u :: (if u in adj then adj[u] else []) == OutEdges(Values(edges), u)
    {
      hide OutEdges;
      adj := map[];
      var es := Values(edges);
      NoOutEdges();
      for i := 0 to |es|
        invariant forall u :: (if u in adj then adj[u] else []) == OutEdges(es[..i], u)
      {
        var e := es[i];
        assert es[..i + 1] == es[..i] + [e];
        OneMoreEdge(es[..i], e);
        adj := adj[e.source := (if e.source in adj then adj[e.source] else []) + [e]];
      }
      assert es[..|es|] == es;
    }

    /** The services a failure of `serviceId` may reach, most probable first. */
    method GetBlastRadius(serviceId: string) returns (r: BlastRadiusResult, ghost visited: Dict<string, Entry>)
      requires Valid() && (serviceId in nodes ==> Fading(edges, serviceId))
      ensures r.originService == serviceId && r.totalAffected == |r.affected|
      ensures serviceId !in nodes ==> r.affected == []
      ensures serviceId in nodes ==> Final(edges, serviceId, Round4, visited)
      ensures serviceId in nodes ==> multiset(r.affected) == multiset(Values(visited)) && Descending(r.affected)
    {
      hide Round4, Descending, Invariant, SortBy, Sorted, Fading;
      visited := Empty();
      if serviceId !in nodes {
        return BlastRadiusResult(serviceId, [], 0), visited;
      }
      var found := Spread(serviceId);
      var affected := Rank(Values(found));
      r := BlastRadiusResult(serviceId, affected, |affected|);
      visited := found;
    }

    method Rank(entries: seq<Entry>) returns (affected: seq<Entry>)
      ensures multiset(affected) == multiset(entries) && Descending(affected)
    {
      affected := Sorted(entries);
      SortKeeps((e: Entry) => -e.probability, entries);
    }

    /** Drains the queue of services whose edges are still to be followed. */
    method Spread(serviceId: string) returns (found: Dict<string, Entry>)
      requires Valid() && Fading(edges, serviceId)
      ensures Final(edges, serviceId, Round4, found) && found.Valid()
    {
      hide Round4, OutEdges, Invariant, DepthBound, Weight, RelaxAll, Fading;
      Round4IsRounding();
      var adj := Adjacency();
      found := Empty();
      var queue := [Item(serviceId, 1.0, 0, [serviceId])];
      ghost var rounds: nat := 0;
      ghost var depth := HasDepthBound(edges, serviceId);
      while |queue| > 0
        invariant State(queue, found) == After(edges, serviceId, Round4, rounds)
        decreases Weight(queue, |edges.keys| + 1, depth)
      {
        AfterInvariant(edges, serviceId, Round4, 0.00005, rounds);
        WitnessedOf(edges, serviceId, Round4, State(queue, found));
        StepLighter(edges, serviceId, Round4, State(queue, found), depth);
        var item := queue[0];
        var out := if item.current in adj then adj[item.current] else [];
        queue, found := FollowEdges(serviceId, item, out, queue[1..], found);
        rounds := rounds + 1;
      }
      AfterInvariant(edges, serviceId, Round4, 0.00005, rounds);
      WitnessedOf(edges, serviceId, Round4, State(queue, found));
    }

    /** Follows the edges of one service. */
    method FollowEdges(serviceId: string, item: Item, out: seq<CausalEdge>, waiting: seq<Item>, known: Dict<string, Entry>)
      returns (queue: seq<Item>, found: Dict<string, Entry>)
      ensures State(queue, found) == RelaxAll(serviceId, Round4, item, out, |out|, State(waiting, known))
    {
      hide Round4;
      queue, found := waiting, known;
      for i := 0 to |out|
        invariant State(queue, found) == RelaxAll(serviceId, Round4, item, out, i, State(waiting, known))
      {
        var e := out[i];
        var next := Extend(item, e);
        if e.target == serviceId { continue; }
        if e.target !in found.vals || found.vals[e.target].probability < next.prob {
          found := Set(found, e.target, EntryOf(Round4, next));
          if next.prob > CUTOFF {
            queue := queue + [next];
          }
        }
      }
    }

    /** Learns from one observed co-failure. */
    method RecordCoFailure(source: string, target: string, ms: int, now: string)
      requires Valid()
      modifies this`edges
      ensures Valid() && edges == Recorded(old(edges), source, target, ms, now)
    {
      var key := (source, target);
      if key !in edges.vals {
        edges := Set(edges, key, CausalEdge(source, target, "calls", 0.5, 0.1, ms, 1, now));
      } else {
        var e := edges.vals[key];
        e := e.(failureCorrelation := Round4(0.3 * 1.0 + (1.0 - 0.3) * e.failureCorrelation));
        e := e.(avgPropagationMs := Truncate(0.3 * ms as real + (1.0 - 0.3) * e.avgPropagationMs as real));
        e := e.(observedCount := e.observedCount + 1);
        e := e.(lastUpdated := now);
        edges := Set(edges, key, e);
      }
    }
  }

  lemma WitnessedOf(g: Edges, origin: string, rnd: real -> real, s: State)
    requires Invariant(g, origin, rnd, s)
    ensures Witnessed(g, origin, rnd, s) && s.visited.Valid()
  {
  }

  lemma NoOutEdges()
    ensures forall u :: OutEdges([], u) == []
  {
  }

  lemma OneMoreEdge(es: seq<CausalEdge>, e: CausalEdge)
    ensures forall u :: OutEdges(es + [e], u) == OutEdges(es, u) + if e.source == u then [e] else []
  {
    assert (es + [e])[..|es|] == es;
  }
}
