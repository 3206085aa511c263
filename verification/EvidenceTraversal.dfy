/** Breadth-first traversal of an evidence graph. */
module EvidenceTraversals {
  import opened Base
  import opened EvidenceGraphs

  // ---- Neighbours ----

  /** The stored nodes at the other ends of the listed edges that have the wanted relationship. */
  function Follow(g: Graph, ids: seq<string>, out: bool, rel: Relationship): seq<Node> {
    if |ids| == 0 then []
    else
      var before, id := Follow(g, ids[..|ids| - 1], out, rel), ids[|ids| - 1];
      if id in g.edges.vals && (rel == None || g.edges.vals[id].relationship == rel.value) && End(g.edges.vals[id], !out) in g.nodes.vals
      then before + [g.nodes.vals[End(g.edges.vals[id], !out)]]
      else before
  }

  function Neighbours(g: Graph, n: string, direction: string, rel: Relationship): seq<Node> {
    (if direction == "out" || direction == "both" then Follow(g, At(g.outEdges, n), true, rel) else []) +
    (if direction == "in" || direction == "both" then Follow(g, At(g.inEdges, n), false, rel) else [])
  }

  /** Some edge with the wanted relationship goes from `a` to `b`. */
  ghost predicate Linked(g: Graph, rel: Relationship, a: string, b: string) {
    exists id <- g.edges.vals ::
      && (rel == None || g.edges.vals[id].relationship == rel.value)
      && g.edges.vals[id].src == a && g.edges.vals[id].dst == b
  }

  /** One hop in the given direction. */
  ghost predicate Hop(g: Graph, direction: string, rel: Relationship, a: string, b: string) {
    || ((direction == "out" || direction == "both") && Linked(g, rel, a, b))
    || ((direction == "in" || direction == "both") && Linked(g, rel, b, a))
  }

  ghost predicate Stored(g: Graph, n: Node) {
    n.nodeId in g.nodes.vals && g.nodes.vals[n.nodeId] == n
  }

  lemma {:induction false} FollowMember(g: Graph, ids: seq<string>, out: bool, rel: Relationship, n: Node)
    requires WellFormed(g)
    ensures n in Follow(g, ids, out, rel) <==>
            Stored(g, n) && exists id <- ids ::
              && id in g.edges.vals && (rel == None || g.edges.vals[id].relationship == rel.value)
              && (if out then g.edges.vals[id].dst else g.edges.vals[id].src) == n.nodeId
  {
    if |ids| > 0 {
      FollowMember(g, ids[..|ids| - 1], out, rel, n);
      assert ids == ids[..|ids| - 1] + [ids[|ids| - 1]];
    }
  }

  lemma FollowLinked(g: Graph, a: string, out: bool, rel: Relationship, n: Node)
    requires Built(g)
    ensures n in Follow(g, At(if out then g.outEdges else g.inEdges, a), out, rel) <==>
            Stored(g, n) && if out then Linked(g, rel, a, n.nodeId) else Linked(g, rel, n.nodeId, a)
  {
    hide EdgesAt, Follow;
    var ids := At(if out then g.outEdges else g.inEdges, a);
    FollowMember(g, ids, out, rel, n);
    if a in g.nodes.vals {
      forall id ensures id in ids <==> id in g.edges.vals && End(g.edges.vals[id], out) == a {
        EdgesAtMember(g.edges.keys, g.edges.vals, out, a, id);
      }
    }
  }

  /** The neighbours of a node, in the stored form, are what one hop leads to. */
  lemma NeighboursMeaning(g: Graph, a: string, direction: string, rel: Relationship, n: Node)
    requires Built(g)
    ensures n in Neighbours(g, a, direction, rel) <==> Stored(g, n) && Hop(g, direction, rel, a, n.nodeId)
  {
    hide Follow, Linked;
    FollowLinked(g, a, true, rel, n);
    FollowLinked(g, a, false, rel, n);
  }

  // ---- The traversal ----

  function IdOf(n: Node): string { n.nodeId }

  function Ids(ns: seq<Node>): (r: seq<string>)
    ensures |r| == |ns| && forall i :: 0 <= i < |ns| ==> r[i] == ns[i].nodeId
  {
    Map(IdOf, ns)
  }

  /** The nodes that are met for the first time, given those seen before. */
  function Unseen(ns: seq<Node>, seen: set<string>): seq<Node> {
    if |ns| == 0 then []
    else
      var before, n := Unseen(ns[..|ns| - 1], seen), ns[|ns| - 1];
      if n.nodeId in seen || n.nodeId in IdSet(before) then before else before + [n]
  }

  /** All that is first met from the nodes of a frontier. */
  function Layer(g: Graph, direction: string, rel: Relationship, frontier: seq<string>, seen: set<string>): seq<Node> {
    if |frontier| == 0 then []
    else
      var before := Layer(g, direction, rel, frontier[..|frontier| - 1], seen);
      before + Unseen(Neighbours(g, frontier[|frontier| - 1], direction, rel), seen + IdSet(before))
  }

  function IdSet(ns: seq<Node>): set<string> {
    set n | n in ns :: n.nodeId
  }

  lemma Joined(a: seq<Node>, b: seq<Node>)
    requires Distinct(Ids(a)) && Distinct(Ids(b)) && IdSet(a) !! IdSet(b)
    ensures Distinct(Ids(a + b)) && IdSet(a + b) == IdSet(a) + IdSet(b)
  {
    forall i, j | 0 <= i < j < |a + b| ensures (a + b)[i].nodeId != (a + b)[j].nodeId {
      if i < |a| <= j {
        assert a[i].nodeId in IdSet(a) && b[j - |a|].nodeId in IdSet(b);
      } else if j < |a| {
        assert Ids(a)[i] != Ids(a)[j];
      } else {
        assert Ids(b)[i - |a|] != Ids(b)[j - |a|];
      }
    }
  }

  datatype Progress = Progress(visited: set<string>, frontier: seq<string>, result: seq<Node>)

  function Traversed(g: Graph, direction: string, rel: Relationship, root: string, hops: nat): Progress {
    if hops == 0 then Progress({root}, [root], [])
    else
      var p := Traversed(g, direction, rel, root, hops - 1);
      var layer := Layer(g, direction, rel, p.frontier, p.visited);
      Progress(p.visited + IdSet(layer), Ids(layer), p.result + layer)
  }

  lemma {:induction false} UnseenMeaning(ns: seq<Node>, seen: set<string>)
    ensures var u := Unseen(ns, seen);
            Distinct(Ids(u)) && IdSet(u) == IdSet(ns) - seen && forall n <- u :: n in ns
  {
    if |ns| > 0 {
      var front, n := ns[..|ns| - 1], ns[|ns| - 1];
      UnseenMeaning(front, seen);
      assert ns == front + [n];
      var before := Unseen(front, seen);
      assert IdSet(ns) == IdSet(front) + {n.nodeId};
      if !(n.nodeId in seen || n.nodeId in IdSet(before)) {
        assert IdSet([n]) == {n.nodeId};
        Joined(before, [n]);
      }
    }
  }

  lemma JoinedMember(a: seq<Node>, b: seq<Node>, id: string)
    ensures id in IdSet(a + b) <==> id in IdSet(a) || id in IdSet(b)
  {
    if id in IdSet(a) {
      var n :| n in a && n.nodeId == id;
      assert n in a + b;
    }
    if id in IdSet(b) {
      var n :| n in b && n.nodeId == id;
      assert n in a + b;
    }
  }

  /** What one hop from a set of nodes leads to. */
  ghost predicate Next(g: Graph, direction: string, rel: Relationship, frontier: seq<string>, b: string) {
    exists a <- frontier :: Hop(g, direction, rel, a, b)
  }

  lemma NeighbourId(g: Graph, a: string, direction: string, rel: Relationship, b: string)
    requires Built(g)
    ensures b in IdSet(Neighbours(g, a, direction, rel)) <==> Hop(g, direction, rel, a, b)
  {
    hide Built, Neighbours, Hop;
    var ns := Neighbours(g, a, direction, rel);
    forall n ensures n in ns <==> Stored(g, n) && Hop(g, direction, rel, a, n.nodeId) {
      NeighboursMeaning(g, a, direction, rel, n);
    }
    if Hop(g, direction, rel, a, b) {
      HopStored(g, a, direction, rel, b);
      assert g.nodes.vals[b] in ns;
    }
  }

  lemma HopStored(g: Graph, a: string, direction: string, rel: Relationship, b: string)
    requires Built(g) && Hop(g, direction, rel, a, b)
    ensures b in g.nodes.vals && g.nodes.vals[b].nodeId == b
  {
  }

  ghost predicate AllStored(g: Graph, ns: seq<Node>) {
    forall n <- ns :: Stored(g, n)
  }

  lemma {:induction false} LayerStored(g: Graph, direction: string, rel: Relationship, frontier: seq<string>, seen: set<string>)
    requires Built(g)
    ensures AllStored(g, Layer(g, direction, rel, frontier, seen))
  {
    if |frontier| > 0 {
      hide Built, Neighbours, Hop, Stored, Unseen, IdSet;
      var front, a := frontier[..|frontier| - 1], frontier[|frontier| - 1];
      LayerStored(g, direction, rel, front, seen);
      var already := seen + IdSet(Layer(g, direction, rel, front, seen));
      UnseenMeaning(Neighbours(g, a, direction, rel), already);
      forall n <- Unseen(Neighbours(g, a, direction, rel), already) ensures Stored(g, n) {
        NeighboursMeaning(g, a, direction, rel, n);
      }
    }
  }

  lemma NextOfMore(g: Graph, direction: string, rel: Relationship, front: seq<string>, a: string, b: string)
    ensures Next(g, direction, rel, front + [a], b) <==> Next(g, direction, rel, front, b) || Hop(g, direction, rel, a, b)
  {
  }

  lemma {:induction false} LayerDistinct(g: Graph, direction: string, rel: Relationship, frontier: seq<string>, seen: set<string>)
    ensures Distinct(Ids(Layer(g, direction, rel, frontier, seen)))
  {
    if |frontier| > 0 {
      hide Neighbours, Unseen, Distinct, Ids, IdSet;
      var front, a := frontier[..|frontier| - 1], frontier[|frontier| - 1];
      LayerDistinct(g, direction, rel, front, seen);
      var before, ns := Layer(g, direction, rel, front, seen), Neighbours(g, a, direction, rel);
      UnseenMeaning(ns, seen + IdSet(before));
      Joined(before, Unseen(ns, seen + IdSet(before)));
    } else {
      assert Ids([]) == [];
    }
  }

  lemma LayerNext(g: Graph, direction: string, rel: Relationship, front: seq<string>, a: string, seen: set<string>)
    ensures var before := Layer(g, direction, rel, front, seen);
            Layer(g, direction, rel, front + [a], seen) == before + Unseen(Neighbours(g, a, direction, rel), seen + IdSet(before))
  {
    assert (front + [a])[..|front|] == front;
  }

  lemma UnseenMember(ns: seq<Node>, seen: set<string>, b: string)
    ensures b in IdSet(Unseen(ns, seen)) <==> b in IdSet(ns) && b !in seen
  {
    UnseenMeaning(ns, seen);
  }

  lemma LayerOfNone(g: Graph, direction: string, rel: Relationship, seen: set<string>, b: string)
    ensures b !in IdSet(Layer(g, direction, rel, [], seen)) && !Next(g, direction, rel, [], b)
  {
  }

  lemma {:induction false} LayerMember(g: Graph, direction: string, rel: Relationship, frontier: seq<string>, seen: set<string>, b: string)
    requires Built(g)
    ensures b in IdSet(Layer(g, direction, rel, frontier, seen)) <==> Next(g, direction, rel, frontier, b) && b !in seen
  {
    hide *;
    if |frontier| > 0 {
      var front, a := frontier[..|frontier| - 1], frontier[|frontier| - 1];
      assert frontier == front + [a];
      LayerMember(g, direction, rel, front, seen, b);
      LayerNext(g, direction, rel, front, a, seen);
      var before, ns := Layer(g, direction, rel, front, seen), Neighbours(g, a, direction, rel);
      UnseenMember(ns, seen + IdSet(before), b);
      NeighbourId(g, a, direction, rel, b);
      JoinedMember(before, Unseen(ns, seen + IdSet(before)), b);
      NextOfMore(g, direction, rel, front, a, b);
    } else {
      assert frontier == [];
      LayerOfNone(g, direction, rel, seen, b);
    }
  }

  /** The nodes at most `k` hops from the root. */
  ghost function Within(g: Graph, direction: string, rel: Relationship, root: string, k: nat): set<string> {
    if k == 0 then {root}
    else
      var near := Within(g, direction, rel, root, k - 1);
      near + set b | b in g.nodes.vals && exists a <- near :: Hop(g, direction, rel, a, b)
  }

  lemma {:induction false} WithinGrows(g: Graph, direction: string, rel: Relationship, root: string, j: nat, k: nat)
    requires j <= k
    ensures Within(g, direction, rel, root, j) <= Within(g, direction, rel, root, k)
    decreases k
  {
    if j < k {
      WithinGrows(g, direction, rel, root, j, k - 1);
    }
  }

  /** What is met in hop `k` for the first time, if the frontier is what was met in the hop before. */
  ghost predicate AtFrontier(g: Graph, direction: string, rel: Relationship, root: string, k: nat, p: Progress) {
    && p.visited == Within(g, direction, rel, root, k)
    && forall a :: a in p.frontier <==>
         a in p.visited && (k > 0 ==> a !in Within(g, direction, rel, root, k - 1))
  }

  lemma FrontierSuffices(g: Graph, direction: string, rel: Relationship, root: string, k: nat, p: Progress)
    requires Built(g) && AtFrontier(g, direction, rel, root, k, p)
    ensures forall b :: Next(g, direction, rel, p.frontier, b) && b !in p.visited
              <==> b in Within(g, direction, rel, root, k + 1) && b !in p.visited
  {
    hide Built, Hop;
    var near := Within(g, direction, rel, root, k);
    forall b | b !in near ensures Next(g, direction, rel, p.frontier, b) <==> b in Within(g, direction, rel, root, k + 1) {
      if Next(g, direction, rel, p.frontier, b) {
        var a :| a in p.frontier && Hop(g, direction, rel, a, b);
        HopStored(g, a, direction, rel, b);
      }
      if b in Within(g, direction, rel, root, k + 1) {
        var a :| a in near && Hop(g, direction, rel, a, b);
        HopStored(g, a, direction, rel, b);
        assert a in p.frontier;
      }
    }
  }

  lemma LayerAdvances(g: Graph, direction: string, rel: Relationship, root: string, k: nat, p: Progress)
    requires Built(g) && AtFrontier(g, direction, rel, root, k, p)
    ensures IdSet(Layer(g, direction, rel, p.frontier, p.visited)) == Within(g, direction, rel, root, k + 1) - Within(g, direction, rel, root, k)
  {
    hide Built, Hop, Layer, Next, Within, IdSet;
    FrontierSuffices(g, direction, rel, root, k, p);
    var layer, far, near := Layer(g, direction, rel, p.frontier, p.visited), Within(g, direction, rel, root, k + 1), Within(g, direction, rel, root, k);
    forall b ensures b in IdSet(layer) <==> b in far && b !in near {
      LayerMember(g, direction, rel, p.frontier, p.visited, b);
    }
  }

  lemma FrontierNext(g: Graph, direction: string, rel: Relationship, root: string, k: nat, p: Progress)
    requires Built(g) && AtFrontier(g, direction, rel, root, k, p)
    ensures var layer := Layer(g, direction, rel, p.frontier, p.visited);
            AtFrontier(g, direction, rel, root, k + 1, Progress(p.visited + IdSet(layer), Ids(layer), p.result + layer))
  {
    hide Built, Layer, Within, IdSet, Ids;
    LayerAdvances(g, direction, rel, root, k, p);
    WithinGrows(g, direction, rel, root, k, k + 1);
    IdsMember(Layer(g, direction, rel, p.frontier, p.visited));
  }

  lemma {:induction false} TraversedFrontier(g: Graph, direction: string, rel: Relationship, root: string, k: nat)
    requires Built(g)
    ensures AtFrontier(g, direction, rel, root, k, Traversed(g, direction, rel, root, k))
  {
    hide Built, Layer, AtFrontier, IdSet, Ids, Within;
    if k > 0 {
      TraversedFrontier(g, direction, rel, root, k - 1);
      FrontierNext(g, direction, rel, root, k - 1, Traversed(g, direction, rel, root, k - 1));
    } else {
      FrontierAtRoot(g, direction, rel, root);
    }
  }

  lemma FrontierAtRoot(g: Graph, direction: string, rel: Relationship, root: string)
    ensures AtFrontier(g, direction, rel, root, 0, Traversed(g, direction, rel, root, 0))
  {
  }

  lemma IdsMember(ns: seq<Node>)
    ensures forall a :: a in Ids(ns) <==> a in IdSet(ns)
  {
    forall a | a in IdSet(ns) ensures a in Ids(ns) {
      var i :| 0 <= i < |ns| && ns[i].nodeId == a;
      assert Ids(ns)[i] == a;
    }
  }

  /** Nothing comes after something nearer to the root. */
  ghost predicate NearestFirst(g: Graph, direction: string, rel: Relationship, root: string, ns: seq<Node>) {
    forall i, j, k: nat :: 0 <= i < j < |ns| && ns[j].nodeId in Within(g, direction, rel, root, k)
      ==> ns[i].nodeId in Within(g, direction, rel, root, k)
  }

  lemma NearestFirstNext(g: Graph, direction: string, rel: Relationship, root: string, k: nat, near: seq<Node>, layer: seq<Node>)
    requires NearestFirst(g, direction, rel, root, near) && IdSet(near) <= Within(g, direction, rel, root, k)
    requires IdSet(layer) == Within(g, direction, rel, root, k + 1) - Within(g, direction, rel, root, k)
    ensures NearestFirst(g, direction, rel, root, near + layer)
  {
    hide Within;
    var all := near + layer;
    forall i, j, m: nat | 0 <= i < j < |all| && all[j].nodeId in Within(g, direction, rel, root, m)
      ensures all[i].nodeId in Within(g, direction, rel, root, m)
    {
      if |near| <= j {
        assert layer[j - |near|].nodeId in IdSet(layer);
        assert all[i].nodeId in IdSet(near) || all[i].nodeId in IdSet(layer) by {
          assert if i < |near| then all[i] == near[i] else all[i] == layer[i - |near|];
        }
        if m <= k {
          WithinGrows(g, direction, rel, root, m, k);
        } else {
          WithinGrows(g, direction, rel, root, k, k + 1);
          WithinGrows(g, direction, rel, root, k + 1, m);
        }
      }
    }
  }

  /** Each once and as stored, exactly the nodes other than the root at most `k` hops away, nearest first. */
  ghost predicate Finds(g: Graph, direction: string, rel: Relationship, root: string, k: nat, ns: seq<Node>) {
    && Distinct(Ids(ns)) && AllStored(g, ns)
    && IdSet(ns) == Within(g, direction, rel, root, k) - {root}
    && NearestFirst(g, direction, rel, root, ns)
  }

  lemma FindsNext(g: Graph, direction: string, rel: Relationship, root: string, k: nat, p: Progress)
    requires Built(g) && AtFrontier(g, direction, rel, root, k, p) && Finds(g, direction, rel, root, k, p.result)
    ensures Finds(g, direction, rel, root, k + 1, p.result + Layer(g, direction, rel, p.frontier, p.visited))
  {
    hide Built, Layer, Within, IdSet, Ids, Distinct, NearestFirst, Stored, Next;
    var layer := Layer(g, direction, rel, p.frontier, p.visited);
    LayerAdvances(g, direction, rel, root, k, p);
    LayerStored(g, direction, rel, p.frontier, p.visited);
    LayerDistinct(g, direction, rel, p.frontier, p.visited);
    WithinGrows(g, direction, rel, root, k, k + 1);
    RootWithin(g, direction, rel, root, k);
    Joined(p.result, layer);
    NearestFirstNext(g, direction, rel, root, k, p.result, layer);
  }

  lemma {:induction false} TraversalMeaning(g: Graph, direction: string, rel: Relationship, root: string, k: nat)
    requires Built(g)
    ensures Finds(g, direction, rel, root, k, Traversed(g, direction, rel, root, k).result)
  {
    hide Built, Finds, AtFrontier, Layer, IdSet, Ids;
    if k > 0 {
      TraversalMeaning(g, direction, rel, root, k - 1);
      TraversedFrontier(g, direction, rel, root, k - 1);
      FindsNext(g, direction, rel, root, k - 1, Traversed(g, direction, rel, root, k - 1));
    } else {
      FindsNone(g, direction, rel, root);
    }
  }

  lemma FindsNone(g: Graph, direction: string, rel: Relationship, root: string)
    ensures Finds(g, direction, rel, root, 0, [])
  {
    assert Ids([]) == [];
  }

  lemma RootWithin(g: Graph, direction: string, rel: Relationship, root: string, k: nat)
    ensures root in Within(g, direction, rel, root, k)
  {
    WithinGrows(g, direction, rel, root, 0, k);
  }

  /** Once a frontier is empty nothing more is found. */
  lemma {:induction false} TraversedDone(g: Graph, direction: string, rel: Relationship, root: string, j: nat, k: nat)
    requires j <= k && Traversed(g, direction, rel, root, j).frontier == []
    ensures Traversed(g, direction, rel, root, k) == Traversed(g, direction, rel, root, j)
    decreases k
  {
    hide *;
    if j < k {
      TraversedDone(g, direction, rel, root, j, k - 1);
      NothingFurther(g, direction, rel, root, k);
    }
  }

  lemma NothingFurther(g: Graph, direction: string, rel: Relationship, root: string, k: nat)
    requires k > 0 && Traversed(g, direction, rel, root, k - 1).frontier == []
    ensures Traversed(g, direction, rel, root, k) == Traversed(g, direction, rel, root, k - 1)
  {
    hide Neighbours, Unseen;
    var p := Traversed(g, direction, rel, root, k - 1);
    assert Layer(g, direction, rel, p.frontier, p.visited) == [];
    assert Ids([]) == [] && IdSet([]) == {};
  }

  // ---- Hops and walks ----

  ghost predicate Walk(g: Graph, direction: string, rel: Relationship, p: seq<string>) {
    |p| > 0 && forall i, j :: 0 <= i < j < |p| && j == i + 1 ==> Hop(g, direction, rel, p[i], p[j])
  }

  ghost predicate WalkTo(g: Graph, direction: string, rel: Relationship, root: string, k: nat, b: string, p: seq<string>) {
    Walk(g, direction, rel, p) && |p| <= k + 1 && p[0] == root && p[|p| - 1] == b
  }

  /** A node is at most `k` hops away exactly if a walk of at most `k` edges leads to it. */
  lemma {:induction false} WithinIsWalks(g: Graph, direction: string, rel: Relationship, root: string, k: nat, b: string)
    requires Built(g)
    ensures b in Within(g, direction, rel, root, k) <==> exists p :: WalkTo(g, direction, rel, root, k, b, p)
  {
    hide Built, Hop;
    if b in Within(g, direction, rel, root, k) {
      WithinHasWalk(g, direction, rel, root, k, b);
    }
    forall p | WalkTo(g, direction, rel, root, k, b, p) ensures b in Within(g, direction, rel, root, k) {
      WalkIsWithin(g, direction, rel, root, k, b, p);
    }
  }

  lemma {:induction false} WithinHasWalk(g: Graph, direction: string, rel: Relationship, root: string, k: nat, b: string)
    requires Built(g) && b in Within(g, direction, rel, root, k)
    ensures exists p :: WalkTo(g, direction, rel, root, k, b, p)
  {
    hide Built, Hop;
    if k == 0 {
      assert WalkTo(g, direction, rel, root, k, b, [root]);
    } else if b in Within(g, direction, rel, root, k - 1) {
      WithinHasWalk(g, direction, rel, root, k - 1, b);
      var p :| WalkTo(g, direction, rel, root, k - 1, b, p);
      assert WalkTo(g, direction, rel, root, k, b, p);
    } else {
      var a :| a in Within(g, direction, rel, root, k - 1) && Hop(g, direction, rel, a, b);
      WithinHasWalk(g, direction, rel, root, k - 1, a);
      var p :| WalkTo(g, direction, rel, root, k - 1, a, p);
      assert WalkTo(g, direction, rel, root, k, b, p + [b]);
    }
  }

  lemma WalkFront(g: Graph, direction: string, rel: Relationship, root: string, k: nat, b: string, p: seq<string>)
    requires WalkTo(g, direction, rel, root, k, b, p) && |p| > 1
    ensures k > 0 && WalkTo(g, direction, rel, root, k - 1, p[|p| - 2], p[..|p| - 1]) && Hop(g, direction, rel, p[|p| - 2], b)
  {
    hide Hop;
  }

  lemma {:induction false} WalkIsWithin(g: Graph, direction: string, rel: Relationship, root: string, k: nat, b: string, p: seq<string>)
    requires Built(g) && WalkTo(g, direction, rel, root, k, b, p)
    ensures b in Within(g, direction, rel, root, k)
    decreases |p|
  {
    hide *;
    if |p| > 1 {
      WalkFront(g, direction, rel, root, k, b, p);
      WalkIsWithin(g, direction, rel, root, k - 1, p[|p| - 2], p[..|p| - 1]);
      OneMoreHop(g, direction, rel, root, k - 1, p[|p| - 2], b);
    } else {
      WalkOfNone(g, direction, rel, root, k, b, p);
    }
  }

  lemma WalkOfNone(g: Graph, direction: string, rel: Relationship, root: string, k: nat, b: string, p: seq<string>)
    requires WalkTo(g, direction, rel, root, k, b, p) && |p| <= 1
    ensures b in Within(g, direction, rel, root, k)
  {
    hide Within, Hop;
    RootWithin(g, direction, rel, root, k);
  }

  lemma OneMoreHop(g: Graph, direction: string, rel: Relationship, root: string, k: nat, a: string, b: string)
    requires Built(g) && a in Within(g, direction, rel, root, k) && Hop(g, direction, rel, a, b)
    ensures b in Within(g, direction, rel, root, k + 1)
  {
    HopStored(g, a, direction, rel, b);
  }
}
