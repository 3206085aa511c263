/** In which order a traversal of the evidence graph finds nodes. */
module TraversalOrder {
  import opened Base
  import opened EvidenceGraphs
  import opened EvidenceTraversals

  // ---- Neighbours ----

  /** `at` are, in order, all positions of listed edges that are stored, have the wanted relationship, and end in a stored node. */
  ghost predicate FollowedAt(g: Graph, ids: seq<string>, out: bool, rel: Relationship, found: seq<Node>, at: seq<nat>) {
    && |at| == |found|
    && (forall i, j :: 0 <= i < j < |at| ==> at[i] < at[j])
    && (forall i :: 0 <= i < |at| ==> at[i] < |ids| && Leads(g, ids[at[i]], out, rel) && found[i] == g.nodes.vals[FarEnd(g, ids[at[i]], out)])
    && forall k :: 0 <= k < |ids| ==> (k in at <==> Leads(g, ids[k], out, rel))
  }

  ghost function FarEnd(g: Graph, id: string, out: bool): string
    requires id in g.edges.vals
  {
    if out then g.edges.vals[id].dst else g.edges.vals[id].src
  }

  ghost predicate Leads(g: Graph, id: string, out: bool, rel: Relationship) {
    id in g.edges.vals && (rel == None || g.edges.vals[id].relationship == rel.value) && FarEnd(g, id, out) in g.nodes.vals
  }

  lemma FollowedNext(g: Graph, ids: seq<string>, id: string, out: bool, rel: Relationship, found: seq<Node>, at: seq<nat>)
    requires FollowedAt(g, ids, out, rel, found, at)
    ensures FollowedAt(g, ids + [id], out, rel,
                       found + (if Leads(g, id, out, rel) then [g.nodes.vals[FarEnd(g, id, out)]] else []),
                       at + if Leads(g, id, out, rel) then [|ids|] else [])
  {
    hide Leads, FarEnd;
    assert |ids| !in at;
  }

  lemma FollowNext(g: Graph, ids: seq<string>, out: bool, rel: Relationship)
    requires |ids| > 0
    ensures var id := ids[|ids| - 1];
            Follow(g, ids, out, rel) ==
              Follow(g, ids[..|ids| - 1], out, rel) + if Leads(g, id, out, rel) then [g.nodes.vals[FarEnd(g, id, out)]] else []
  {
  }

  /** Neighbours come in the order in which their edges were added. */
  lemma {:induction false} FollowOrder(g: Graph, ids: seq<string>, out: bool, rel: Relationship) returns (at: seq<nat>)
    ensures FollowedAt(g, ids, out, rel, Follow(g, ids, out, rel), at)
    decreases |ids|
  {
    hide FollowedAt, Leads, FarEnd, Follow;
    at := [];
    if |ids| > 0 {
      var front, id := ids[..|ids| - 1], ids[|ids| - 1];
      at := FollowOrder(g, front, out, rel);
      FollowedNext(g, front, id, out, rel, Follow(g, front, out, rel), at);
      FollowNext(g, ids, out, rel);
      assert ids == front + [id];
      at := at + if Leads(g, id, out, rel) then [|front|] else [];
    } else {
      NothingFollowed(g, out, rel);
    }
  }

  lemma NothingFollowed(g: Graph, out: bool, rel: Relationship)
    ensures FollowedAt(g, [], out, rel, Follow(g, [], out, rel), [])
  {
  }

  // ---- First meetings ----

  ghost predicate MetFirst(ns: seq<Node>, seen: set<string>, k: nat)
    requires k < |ns|
  {
    ns[k].nodeId !in seen && forall j :: 0 <= j < k ==> ns[j].nodeId != ns[k].nodeId
  }

  /** `at` are, in order, all positions at which a node is met that was not seen before. */
  ghost predicate FirstMet(ns: seq<Node>, seen: set<string>, found: seq<Node>, at: seq<nat>) {
    && |at| == |found|
    && (forall i, j :: 0 <= i < j < |at| ==> at[i] < at[j])
    && (forall i :: 0 <= i < |at| ==> at[i] < |ns| && found[i] == ns[at[i]])
    && forall k :: 0 <= k < |ns| ==> (k in at <==> MetFirst(ns, seen, k))
  }

  lemma FirstMetNext(ns: seq<Node>, n: Node, seen: set<string>, found: seq<Node>, at: seq<nat>)
    requires FirstMet(ns, seen, found, at)
    ensures var first := MetFirst(ns + [n], seen, |ns|);
            FirstMet(ns + [n], seen, found + (if first then [n] else []), at + if first then [|ns|] else [])
  {
    var all := ns + [n];
    forall k | 0 <= k < |ns| ensures MetFirst(all, seen, k) <==> MetFirst(ns, seen, k) {
      assert all[k] == ns[k] && forall j :: 0 <= j < k ==> all[j] == ns[j];
    }
    hide MetFirst;
    assert |ns| !in at;
  }

  lemma UnseenNext(ns: seq<Node>, n: Node, seen: set<string>)
    ensures Unseen(ns + [n], seen) == Unseen(ns, seen) + if MetFirst(ns + [n], seen, |ns|) then [n] else []
  {
    var all := ns + [n];
    assert all[..|ns|] == ns;
    UnseenMeaning(ns, seen);
    hide Unseen;
    assert MetFirst(all, seen, |ns|) <==> n.nodeId !in seen && n.nodeId !in IdSet(ns) by {
      if n.nodeId in IdSet(ns) {
        var j :| 0 <= j < |ns| && ns[j].nodeId == n.nodeId;
        assert all[j] == ns[j];
      } else {
        forall j | 0 <= j < |ns| ensures all[j].nodeId != n.nodeId {
          assert ns[j] in ns;
        }
      }
    }
    UnseenLast(ns, n, seen);
  }

  lemma UnseenLast(ns: seq<Node>, n: Node, seen: set<string>)
    ensures Unseen(ns + [n], seen) ==
            Unseen(ns, seen) + if n.nodeId in seen || n.nodeId in IdSet(Unseen(ns, seen)) then [] else [n]
  {
    assert (ns + [n])[..|ns|] == ns;
  }

  lemma {:induction false} UnseenOrder(ns: seq<Node>, seen: set<string>) returns (at: seq<nat>)
    ensures FirstMet(ns, seen, Unseen(ns, seen), at)
    decreases |ns|
  {
    hide FirstMet, MetFirst, Unseen;
    at := [];
    if |ns| > 0 {
      var front, n := ns[..|ns| - 1], ns[|ns| - 1];
      at := UnseenOrder(front, seen);
      assert ns == front + [n];
      FirstMetNext(front, n, seen, Unseen(front, seen), at);
      UnseenNext(front, n, seen);
      at := at + if MetFirst(front + [n], seen, |front|) then [|front|] else [];
    } else {
      NothingMet(seen);
    }
  }

  lemma NothingMet(seen: set<string>)
    ensures FirstMet([], seen, Unseen([], seen), [])
  {
  }

  // ---- One hop ----

  /** The neighbours of the nodes of a frontier, one after the other. */
  function Reached(g: Graph, direction: string, rel: Relationship, frontier: seq<string>): seq<Node> {
    if |frontier| == 0 then []
    else Reached(g, direction, rel, frontier[..|frontier| - 1]) + Neighbours(g, frontier[|frontier| - 1], direction, rel)
  }

  lemma {:induction false} UnseenConcat(a: seq<Node>, b: seq<Node>, seen: set<string>)
    ensures Unseen(a + b, seen) == Unseen(a, seen) + Unseen(b, seen + IdSet(Unseen(a, seen)))
    decreases |b|
  {
    hide Unseen;
    if |b| == 0 {
      assert a + b == a;
      assert Unseen(b, seen + IdSet(Unseen(a, seen))) == [] by { NoneUnseen(seen + IdSet(Unseen(a, seen))); }
    } else {
      var front, n := b[..|b| - 1], b[|b| - 1];
      assert a + b == (a + front) + [n] && b == front + [n];
      UnseenConcat(a, front, seen);
      UnseenLast(a + front, n, seen);
      UnseenLast(front, n, seen + IdSet(Unseen(a, seen)));
      JoinedMember(Unseen(a, seen), Unseen(front, seen + IdSet(Unseen(a, seen))), n.nodeId);
    }
  }

  lemma NoneUnseen(seen: set<string>)
    ensures Unseen([], seen) == []
  {
  }

  lemma {:induction false} LayerIsUnseen(g: Graph, direction: string, rel: Relationship, frontier: seq<string>, seen: set<string>)
    ensures Layer(g, direction, rel, frontier, seen) == Unseen(Reached(g, direction, rel, frontier), seen)
  {
    hide Unseen, Neighbours, IdSet;
    if |frontier| == 0 {
      NoneUnseen(seen);
    } else {
      var front, a := frontier[..|frontier| - 1], frontier[|frontier| - 1];
      LayerIsUnseen(g, direction, rel, front, seen);
      UnseenConcat(Reached(g, direction, rel, front), Neighbours(g, a, direction, rel), seen);
    }
  }

  lemma {:induction false} VisitedIs(g: Graph, direction: string, rel: Relationship, root: string, hops: nat)
    ensures var p := Traversed(g, direction, rel, root, hops); p.visited == {root} + IdSet(p.result)
  {
    hide Layer, IdSet;
    if hops > 0 {
      VisitedIs(g, direction, rel, root, hops - 1);
      var p := Traversed(g, direction, rel, root, hops - 1);
      var layer := Layer(g, direction, rel, p.frontier, p.visited);
      forall id ensures id in IdSet(p.result + layer) <==> id in IdSet(p.result) || id in IdSet(layer) {
        JoinedMember(p.result, layer, id);
      }
      assert IdSet(p.result + layer) == IdSet(p.result) + IdSet(layer);
    } else {
      NoIds();
    }
  }

  lemma NoIds()
    ensures IdSet([]) == {}
  {
  }

  /**
   One more hop adds at the end, each at its first meeting, the nodes not found before and other than
   the root, as they are met when the nodes found in the hop before are taken in order, and the
   neighbours of each in order.
   */
  lemma HopOrder(g: Graph, direction: string, rel: Relationship, root: string, hops: nat) returns (found: seq<Node>, at: seq<nat>)
    ensures var p, q := Traversed(g, direction, rel, root, hops), Traversed(g, direction, rel, root, hops + 1);
            && q.result == p.result + found && q.frontier == Ids(found)
            && (hops == 0 ==> p.frontier == [root] && p.result == [])
            && FirstMet(Reached(g, direction, rel, p.frontier), {root} + IdSet(p.result), found, at)
  {
    hide Layer, Unseen, Reached, FirstMet, IdSet;
    VisitedIs(g, direction, rel, root, hops);
    var p := Traversed(g, direction, rel, root, hops);
    found := Layer(g, direction, rel, p.frontier, p.visited);
    LayerIsUnseen(g, direction, rel, p.frontier, p.visited);
    at := UnseenOrder(Reached(g, direction, rel, p.frontier), p.visited);
  }
}
