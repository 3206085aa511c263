/** When the layout puts every child to the right of its parents. */
module LayoutOrder {
  import opened ExecutionGraphs
  import opened GraphLayout

  /** Every edge from a node that has a level leads to a later level. */
  ghost predicate GoesRight(g: Graph) {
    var levels := FinalLevels(g).vals;
    forall a, b :: a in levels && Child(g, a, b) ==> b in levels && levels[a] < levels[b]
  }

  /** The order in which the search visits nodes: breadth-first, each once, whatever the levels are. */
  ghost function Visits(g: Graph, queue: seq<NodeId>, visited: set<NodeId>): seq<NodeId>
    requires AllIn(g, queue)
    decreases |Ids(g) - visited|, |queue|
  {
    if |queue| == 0 then []
    else
      var id := queue[0];
      if id in visited then Visits(g, queue[1..], visited)
      else
        Shrinks(g, visited, id);
        [id] + Visits(g, queue[1..] + Present(g, ChildrenOf(g, id)), visited + {id})
  }

  ghost function VisitOrder(g: Graph): seq<NodeId> {
    RootsAreIn(g);
    Visits(g, RootsIn(g.nodes), {})
  }

  /** A path from a root whose nodes, but for the last, are visited one after the other. */
  ghost predicate OrderedPath(g: Graph, done: seq<NodeId>, p: seq<NodeId>) {
    && Path(g, p)
    && (forall i :: 0 <= i < |p| - 1 ==> p[i] in done)
    && forall i, j :: 0 <= i < j < |p| - 1 ==> Position(done, p[i]) < Position(done, p[j])
  }

  /** No path to a node is longer than every ordered one: the search comes along a longest path in order. */
  ghost predicate LongestInOrder(g: Graph) {
    forall p :: Path(g, p) ==>
      exists q :: OrderedPath(g, VisitOrder(g), q) && q[|q| - 1] == p[|p| - 1] && |q| >= |p|
  }

  // ---- Levels and ordered paths ----

  ghost predicate NoSelfChild(g: Graph) {
    forall a, n: nat :: PathTo(g, a, n) ==> !Child(g, a, a)
  }

  /** An ordered path of `n` edges leads to the node. */
  ghost predicate OrderedTo(g: Graph, done: seq<NodeId>, id: NodeId, n: nat) {
    exists p :: OrderedPath(g, done, p) && |p| == n + 1 && p[n] == id
  }

  ghost predicate LevelsAreOrdered(g: Graph, done: seq<NodeId>, levels: Levels) {
    forall id <- levels.vals :: OrderedTo(g, done, id, levels.vals[id])
  }

  /** No ordered path is longer than the level of its end. */
  ghost predicate LevelsCover(g: Graph, done: seq<NodeId>, levels: Levels) {
    forall p :: OrderedPath(g, done, p) ==> |p| - 1 <= LevelOf(levels, p[|p| - 1])
  }

  lemma {:induction false} PositionAppend(s: seq<NodeId>, u: NodeId, x: NodeId)
    ensures x in s ==> Position(s + [u], x) == Position(s, x) < |s|
    ensures x !in s && x == u ==> Position(s + [u], x) == |s|
  {
    if |s| > 0 {
      assert (s + [u])[1..] == s[1..] + [u];
      PositionAppend(s[1..], u, x);
    }
  }

  lemma OrderedGrows(g: Graph, done: seq<NodeId>, u: NodeId, p: seq<NodeId>)
    requires OrderedPath(g, done, p)
    ensures OrderedPath(g, done + [u], p)
  {
    hide Path, Position;
    forall i | 0 <= i < |p| - 1 ensures Position(done + [u], p[i]) == Position(done, p[i]) {
      PositionAppend(done, u, p[i]);
    }
  }

  lemma OrderedToGrows(g: Graph, done: seq<NodeId>, u: NodeId, id: NodeId, n: nat)
    requires OrderedTo(g, done, id, n)
    ensures OrderedTo(g, done + [u], id, n)
  {
    hide OrderedPath;
    var p :| OrderedPath(g, done, p) && |p| == n + 1 && p[n] == id;
    OrderedGrows(g, done, u, p);
  }

  /** An ordered path to the node just visited extends to its children. */
  lemma OrderedExtends(g: Graph, done: seq<NodeId>, u: NodeId, n: nat, c: NodeId)
    requires OrderedTo(g, done, u, n) && u !in done && Child(g, u, c)
    ensures OrderedTo(g, done + [u], c, n + 1)
  {
    hide Child, Root, Position;
    var p :| OrderedPath(g, done, p) && |p| == n + 1 && p[n] == u;
    var q := p + [c];
    assert Path(g, q);
    forall i | 0 <= i < |q| - 1 ensures q[i] in done + [u] && (i < n ==> Position(done + [u], q[i]) == Position(done, p[i]) < |done|)
                                     && (i == n ==> Position(done + [u], q[i]) == |done|) {
      PositionAppend(done, u, q[i]);
    }
    assert OrderedPath(g, done + [u], q) && |q| == n + 2 && q[n + 1] == c;
  }

  /** Undoing the last step of an ordered path. */
  lemma OrderedShrinks(g: Graph, done: seq<NodeId>, u: NodeId, p: seq<NodeId>)
    requires OrderedPath(g, done + [u], p) && u !in done
    ensures OrderedPath(g, done, p)
         || (|p| > 1 && p[|p| - 2] == u && Child(g, u, p[|p| - 1]) && OrderedPath(g, done, p[..|p| - 1]))
  {
    hide Child, Root, Position;
    forall i | 0 <= i < |p| - 1
      ensures p[i] in done ==> Position(done + [u], p[i]) == Position(done, p[i]) < |done|
      ensures p[i] !in done ==> p[i] == u && Position(done + [u], p[i]) == |done|
    {
      PositionAppend(done, u, p[i]);
    }
    if |p| > 1 && p[|p| - 2] == u {
      var front := p[..|p| - 1];
      assert Path(g, front);
      forall i | 0 <= i < |front| - 1 ensures front[i] in done {
        assert Position(done + [u], p[i]) < Position(done + [u], p[|p| - 2]);
      }
    } else if |p| > 1 {
      forall i | 0 <= i < |p| - 1 ensures p[i] in done {
        if i < |p| - 2 {
          assert Position(done + [u], p[i]) < Position(done + [u], p[|p| - 2]);
        }
      }
    }
  }

  // ---- Raising ----

  lemma {:induction false} RaiseAtLeast(g: Graph, levels: Levels, id: NodeId, children: seq<NodeId>, c: NodeId)
    ensures LevelOf(Raise(g, levels, id, children), c) >= LevelOf(levels, c)
    ensures c in children && Has(g, c) ==> LevelOf(Raise(g, levels, id, children), c) >= LevelOf(levels, id) + 1
  {
    hide Has;
    if |children| > 0 {
      var front, last := children[..|children| - 1], children[|children| - 1];
      assert children == front + [last];
      RaiseAtLeast(g, levels, id, front, c);
      RaiseAtLeast(g, levels, id, front, id);
    }
  }

  lemma {:induction false} RaiseOrdered(g: Graph, levels: Levels, done: seq<NodeId>, id: NodeId, children: seq<NodeId>)
    requires LevelsAreOrdered(g, done, levels) && id in levels.vals && id !in done && !Child(g, id, id)
    requires forall c <- children :: c in ChildrenOf(g, id)
    ensures var r := Raise(g, levels, id, children);
            LevelsAreOrdered(g, done + [id], r) && id in r.vals && r.vals[id] == levels.vals[id]
  {
    hide OrderedTo, Has, ChildrenOf;
    if |children| > 0 {
      var front, c := children[..|children| - 1], children[|children| - 1];
      assert children == front + [c];
      RaiseOrdered(g, levels, done, id, front);
      if Has(g, c) {
        assert Child(g, id, c);
        assert c != id;
        OrderedExtends(g, done, id, levels.vals[id], c);
      }
    } else {
      forall x <- levels.vals ensures OrderedTo(g, done + [id], x, levels.vals[x]) {
        OrderedToGrows(g, done, id, x, levels.vals[x]);
      }
    }
  }

  lemma RaiseCovers(g: Graph, levels: Levels, done: seq<NodeId>, id: NodeId)
    requires LevelsCover(g, done, levels) && id !in done
    ensures LevelsCover(g, done + [id], Raise(g, levels, id, ChildrenOf(g, id)))
  {
    hide ChildrenOf, Raise, Has, LevelOf, Root, Position;
    var r := Raise(g, levels, id, ChildrenOf(g, id));
    forall p | OrderedPath(g, done + [id], p) ensures |p| - 1 <= LevelOf(r, p[|p| - 1]) {
      OrderedShrinks(g, done, id, p);
      RaiseAtLeast(g, levels, id, ChildrenOf(g, id), p[|p| - 1]);
    }
  }

  // ---- The whole search ----

  /** What has been visited so far, as a set and as a sequence, and what the levels are by then. */
  ghost predicate Searching(g: Graph, queue: seq<NodeId>, visited: set<NodeId>, levels: Levels, done: seq<NodeId>) {
    && Progressing(g, queue, visited, levels)
    && (forall x :: x in done <==> x in visited)
    && LevelsCover(g, done, levels)
    && (NoSelfChild(g) ==> LevelsAreOrdered(g, done, levels))
  }

  lemma NotItsOwnChild(g: Graph, id: NodeId, levels: Levels)
    requires NoSelfChild(g) && LevelsArePaths(g, levels) && id in levels.vals
    ensures !Child(g, id, id)
  {
    hide PathTo, Child;
    assert PathTo(g, id, levels.vals[id]);
  }

  lemma QueueHasLevel(g: Graph, queue: seq<NodeId>, visited: set<NodeId>, levels: Levels)
    requires Progressing(g, queue, visited, levels) && |queue| > 0
    ensures queue[0] in levels.vals && LevelsArePaths(g, levels)
  {
  }

  lemma VisitOrdered(g: Graph, queue: seq<NodeId>, visited: set<NodeId>, levels: Levels, done: seq<NodeId>)
    requires Progressing(g, queue, visited, levels) && |queue| > 0 && queue[0] !in done
    requires NoSelfChild(g) && LevelsAreOrdered(g, done, levels)
    ensures LevelsAreOrdered(g, done + [queue[0]], Raise(g, levels, queue[0], ChildrenOf(g, queue[0])))
  {
    hide *;
    QueueHasLevel(g, queue, visited, levels);
    NotItsOwnChild(g, queue[0], levels);
    RaiseOrdered(g, levels, done, queue[0], ChildrenOf(g, queue[0]));
  }

  lemma SearchVisits(g: Graph, queue: seq<NodeId>, visited: set<NodeId>, levels: Levels, done: seq<NodeId>)
    requires Searching(g, queue, visited, levels, done) && |queue| > 0 && queue[0] !in visited
    ensures var id := queue[0];
            Searching(g, queue[1..] + Present(g, ChildrenOf(g, id)), visited + {id}, Raise(g, levels, id, ChildrenOf(g, id)), done + [id])
  {
    hide Progressing, LevelsCover, LevelsAreOrdered, Raise, NoSelfChild, ChildrenOf, Present;
    ProgressVisits(g, queue, visited, levels);
    RaiseCovers(g, levels, done, queue[0]);
    if NoSelfChild(g) {
      VisitOrdered(g, queue, visited, levels, done);
    }
  }

  lemma SearchSkips(g: Graph, queue: seq<NodeId>, visited: set<NodeId>, levels: Levels, done: seq<NodeId>)
    requires Searching(g, queue, visited, levels, done) && |queue| > 0 && queue[0] in visited
    ensures Searching(g, queue[1..], visited, levels, done)
  {
    hide Progressing, LevelsCover, LevelsAreOrdered, NoSelfChild;
    ProgressSkips(g, queue, visited, levels);
  }

  lemma SearchQueueIn(g: Graph, queue: seq<NodeId>, visited: set<NodeId>, levels: Levels, done: seq<NodeId>)
    requires Searching(g, queue, visited, levels, done)
    ensures AllIn(g, queue) && (|queue| > 0 ==> queue[0] in Ids(g))
  {
    hide Progressing, LevelsCover, LevelsAreOrdered, NoSelfChild;
    QueueIn(g, queue, visited, levels);
  }

  /** What the search is after: levels that are right for the order of its visits. */
  ghost predicate Explained(g: Graph, order: seq<NodeId>, levels: Levels) {
    LevelsCover(g, order, levels) && (NoSelfChild(g) ==> LevelsAreOrdered(g, order, levels))
  }

  lemma SearchExplains(g: Graph, queue: seq<NodeId>, visited: set<NodeId>, levels: Levels, done: seq<NodeId>)
    requires Searching(g, queue, visited, levels, done)
    ensures Explained(g, done, levels)
  {
    hide Progressing, LevelsCover, LevelsAreOrdered, NoSelfChild;
  }

  lemma {:induction false} SearchEnds(g: Graph, queue: seq<NodeId>, visited: set<NodeId>, levels: Levels, done: seq<NodeId>)
    requires AllIn(g, queue) && Searching(g, queue, visited, levels, done)
    ensures Explained(g, done + Visits(g, queue, visited), Assign(g, queue, visited, levels))
    decreases |Ids(g) - visited|, |queue|
  {
    hide Searching, Explained, Raise, ChildrenOf, Present, Ids, AllIn;
    SearchQueueIn(g, queue, visited, levels, done);
    if |queue| == 0 {
      SearchExplains(g, queue, visited, levels, done);
      assert done + Visits(g, queue, visited) == done;
    } else if queue[0] in visited {
      SearchSkips(g, queue, visited, levels, done);
      SearchQueueIn(g, queue[1..], visited, levels, done);
      SearchEnds(g, queue[1..], visited, levels, done);
    } else {
      var id := queue[0];
      SearchVisits(g, queue, visited, levels, done);
      Shrinks(g, visited, id);
      var rest, raised := queue[1..] + Present(g, ChildrenOf(g, id)), Raise(g, levels, id, ChildrenOf(g, id));
      SearchQueueIn(g, rest, visited + {id}, raised, done + [id]);
      SearchEnds(g, rest, visited + {id}, raised, done + [id]);
      assert done + ([id] + Visits(g, rest, visited + {id})) == (done + [id]) + Visits(g, rest, visited + {id});
    }
  }

  lemma SearchBegins(g: Graph)
    ensures var roots := RootsIn(g.nodes); Searching(g, roots, {}, AtZero(roots), [])
  {
    assert forall id <- RootsIn(g.nodes) :: Root(g, id);
    hide AtZero, Progressing, Root, RootsIn, Has, ChildrenOf, LevelsAreOrdered;
    StartProgress(g);
    RootsAtLevelZero(g, RootsIn(g.nodes));
    NothingToCover(g, AtZero(RootsIn(g.nodes)));
  }

  lemma NothingToCover(g: Graph, levels: Levels)
    ensures LevelsCover(g, [], levels)
  {
    hide Child, Root, LevelOf;
    var none: seq<NodeId> := [];
    forall p | OrderedPath(g, none, p) ensures |p| == 1 {
    }
  }

  lemma {:induction false} RootsAtLevelZero(g: Graph, ids: seq<NodeId>)
    requires forall id <- ids :: Root(g, id)
    ensures LevelsAreOrdered(g, [], AtZero(ids))
  {
    hide Root;
    if |ids| > 0 {
      var front, id := ids[..|ids| - 1], ids[|ids| - 1];
      assert ids == front + [id];
      RootsAtLevelZero(g, front);
      assert OrderedPath(g, [], [id]);
    }
  }

  /**
   The level of a node is at least the length of every ordered path to it; and, unless a node is its
   own child, it is the length of an ordered path.
   */
  lemma LevelsFollowOrder(g: Graph)
    ensures Explained(g, VisitOrder(g), FinalLevels(g))
  {
    hide Explained, Searching, RootsIn, AtZero, AllIn;
    RootsAreIn(g);
    var roots := RootsIn(g.nodes);
    SearchBegins(g);
    SearchEnds(g, roots, {}, AtZero(roots), []);
    assert [] + Visits(g, roots, {}) == Visits(g, roots, {});
  }

  // ---- The exact condition ----

  lemma {:induction false} PathBelowLevel(g: Graph, p: seq<NodeId>)
    requires GoesRight(g) && Path(g, p)
    ensures p[|p| - 1] in FinalLevels(g).vals && |p| - 1 <= FinalLevels(g).vals[p[|p| - 1]]
    decreases |p|
  {
    hide FinalLevels, Child, Root;
    FinalLevelsMeaning(g);
    if |p| > 1 {
      PathBelowLevel(g, p[..|p| - 1]);
      assert Child(g, p[|p| - 2], p[|p| - 1]);
    } else {
      assert Path(g, p) && |p| == 0 + 1;
      assert PathTo(g, p[0], 0);
    }
  }

  lemma RightHasNoSelfChild(g: Graph)
    requires GoesRight(g)
    ensures NoSelfChild(g)
  {
    hide FinalLevels, PathTo, Child;
    FinalLevelsMeaning(g);
  }

  /** Every node with a level is the end of a path of that length, which a child makes longer by one. */
  lemma ChildPath(g: Graph, a: NodeId, b: NodeId) returns (p: seq<NodeId>)
    requires a in FinalLevels(g).vals && Child(g, a, b)
    ensures Path(g, p) && p[|p| - 1] == b && |p| == FinalLevels(g).vals[a] + 2
  {
    hide FinalLevels, Child, Root, Path;
    FinalLevelsMeaning(g);
    var n := FinalLevels(g).vals[a];
    assert PathTo(g, a, n);
    PathExtends(g, a, n, b);
    p :| Path(g, p) && |p| == n + 2 && p[n + 1] == b;
  }

  lemma LongestComesInOrder(g: Graph, p: seq<NodeId>)
    requires GoesRight(g) && Path(g, p)
    ensures exists q :: OrderedPath(g, VisitOrder(g), q) && q[|q| - 1] == p[|p| - 1] && |q| >= |p|
  {
    hide FinalLevels, VisitOrder, OrderedPath, Child, Root, NoSelfChild, LevelsCover;
    var order, v := VisitOrder(g), p[|p| - 1];
    LevelsFollowOrder(g);
    RightHasNoSelfChild(g);
    PathBelowLevel(g, p);
    var n := FinalLevels(g).vals[v];
    assert OrderedTo(g, order, v, n);
    var q :| OrderedPath(g, order, q) && |q| == n + 1 && q[n] == v;
  }

  lemma InOrderGoesRight(g: Graph, a: NodeId, b: NodeId)
    requires LongestInOrder(g) && a in FinalLevels(g).vals && Child(g, a, b)
    ensures b in FinalLevels(g).vals && FinalLevels(g).vals[a] < FinalLevels(g).vals[b]
  {
    hide FinalLevels, VisitOrder, Child, Root, OrderedPath, Explained, Path;
    var p := ChildPath(g, a, b);
    PathsNonEmpty(g, p);
    var q :| |q| >= |p| && OrderedPath(g, VisitOrder(g), q) && q[|q| - 1] == p[|p| - 1];
    LevelsFollowOrder(g);
    CoversOne(g, VisitOrder(g), FinalLevels(g), q);
  }

  lemma CoversOne(g: Graph, order: seq<NodeId>, levels: Levels, q: seq<NodeId>)
    requires Explained(g, order, levels) && OrderedPath(g, order, q)
    ensures |q| > 0 && |q| - 1 <= LevelOf(levels, q[|q| - 1])
  {
    hide Position, Child, Root, NoSelfChild, LevelsAreOrdered;
  }

  /**
   The layout puts every child to the right of its parents exactly if, for each node, the search comes
   along some longest path to it in order.
   */
  lemma GoesRightExactly(g: Graph)
    ensures GoesRight(g) <==> LongestInOrder(g)
  {
    hide FinalLevels, VisitOrder, OrderedPath, Child, Path;
    if GoesRight(g) {
      forall p | Path(g, p) ensures |p| > 0 && exists q :: |q| > 0 && OrderedPath(g, VisitOrder(g), q) && q[|q| - 1] == p[|p| - 1] && |q| >= |p| {
        PathsNonEmpty(g, p);
        LongestComesInOrder(g, p);
      }
    }
    if LongestInOrder(g) {
      forall a, b | a in FinalLevels(g).vals && Child(g, a, b)
        ensures b in FinalLevels(g).vals && FinalLevels(g).vals[a] < FinalLevels(g).vals[b]
      {
        InOrderGoesRight(g, a, b);
      }
    }
  }

  lemma PathsNonEmpty(g: Graph, p: seq<NodeId>)
    requires Path(g, p)
    ensures |p| > 0
  {
  }

  /** One number for each node that is 0 at the roots and goes up by one along every edge. */
  ghost predicate Graded(g: Graph, d: NodeId -> nat) {
    && (forall r :: Root(g, r) ==> d(r) == 0)
    && forall a, b :: Child(g, a, b) ==> d(b) == d(a) + 1
  }

  lemma {:induction false} GradedPath(g: Graph, d: NodeId -> nat, p: seq<NodeId>)
    requires Graded(g, d) && Path(g, p)
    ensures d(p[|p| - 1]) == |p| - 1
    decreases |p|
  {
    hide Child, Root;
    if |p| > 1 {
      GradedPath(g, d, p[..|p| - 1]);
      assert Child(g, p[|p| - 2], p[|p| - 1]);
    }
  }

  /** In a graph whose paths to a node all have one length, every edge leads exactly one column to the right. */
  lemma GradedGoesRight(g: Graph, d: NodeId -> nat)
    requires Graded(g, d)
    ensures GoesRight(g)
    ensures var levels := FinalLevels(g).vals;
            forall a, b :: a in levels && Child(g, a, b) ==> b in levels && levels[b] == levels[a] + 1
  {
    hide FinalLevels, Child, Root;
    FinalLevelsMeaning(g);
    var levels := FinalLevels(g).vals;
    forall a, b | a in levels && Child(g, a, b) ensures b in levels && levels[b] == levels[a] + 1 {
      var p := ChildPath(g, a, b);
      GradedPath(g, d, p);
      assert PathTo(g, b, levels[a] + 1);
      LevelIsGrade(g, d, a);
      LevelIsGrade(g, d, b);
    }
  }

  lemma LevelIsGrade(g: Graph, d: NodeId -> nat, v: NodeId)
    requires Graded(g, d) && v in FinalLevels(g).vals
    ensures FinalLevels(g).vals[v] == d(v)
  {
    hide FinalLevels, Child, Root, Path;
    FinalLevelsMeaning(g);
    var n := FinalLevels(g).vals[v];
    assert PathTo(g, v, n);
    var p :| Path(g, p) && |p| == n + 1 && p[n] == v;
    GradedPath(g, d, p);
  }
}
