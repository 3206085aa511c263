/** Giving the nodes of an execution graph a level and a position on the screen. */
module GraphLayout {
  import opened Base
  import opened Dicts
  import opened ExecutionGraphs

  type Levels = Dict<NodeId, nat>

  datatype Place = Place(x: real, y: real)

  const X_STEP := 200.0
  const Y_STEP := 80.0

  function Ids(g: Graph): (r: set<NodeId>) {
    set n | n in g.nodes :: n.id
  }

  function LevelOf(levels: Levels, id: NodeId): nat {
    if id in levels.vals then levels.vals[id] else 0
  }

  /** One child of `id`, if it is in the graph, is put at least one level further. */
  function RaiseOne(g: Graph, levels: Levels, id: NodeId, child: NodeId): Levels {
    if !Has(g, child) then levels
    else
      var near, far := LevelOf(levels, child), LevelOf(levels, id) + 1;
      Set(levels, child, if near < far then far else near)
  }

  function Raise(g: Graph, levels: Levels, id: NodeId, children: seq<NodeId>): Levels {
    if |children| == 0 then levels
    else RaiseOne(g, Raise(g, levels, id, children[..|children| - 1]), id, children[|children| - 1])
  }

  /** The children that are in the graph. */
  function Present(g: Graph, children: seq<NodeId>): (r: seq<NodeId>)
    ensures forall c :: c in r <==> c in children && Has(g, c)
  {
    if |children| == 0 then []
    else
      assert children == children[..|children| - 1] + [children[|children| - 1]];
      var before, c := Present(g, children[..|children| - 1]), children[|children| - 1];
      if Has(g, c) then before + [c] else before
  }

  function ChildrenOf(g: Graph, id: NodeId): seq<NodeId> {
    if Has(g, id) then g.nodes[Index(g.nodes, id)].children else []
  }

  lemma HasIsIds(g: Graph, id: NodeId)
    ensures Has(g, id) <==> id in Ids(g)
  {
  }

  ghost predicate AllIn(g: Graph, ids: seq<NodeId>) {
    forall id <- ids :: id in Ids(g)
  }

  /** The levels when the queue has run empty. */
  ghost function Assign(g: Graph, queue: seq<NodeId>, visited: set<NodeId>, levels: Levels): Levels
    requires AllIn(g, queue)
    decreases |Ids(g) - visited|, |queue|
  {
    if |queue| == 0 then levels
    else
      var id := queue[0];
      if id in visited then Assign(g, queue[1..], visited, levels)
      else
        Shrinks(g, visited, id);
        Assign(g, queue[1..] + Present(g, ChildrenOf(g, id)), visited + {id}, Raise(g, levels, id, ChildrenOf(g, id)))
  }

  lemma Shrinks(g: Graph, visited: set<NodeId>, id: NodeId)
    requires id in Ids(g) && id !in visited
    ensures |Ids(g) - (visited + {id})| < |Ids(g) - visited|
    ensures AllIn(g, Present(g, ChildrenOf(g, id)))
  {
    assert Ids(g) - visited == (Ids(g) - (visited + {id})) + {id};
  }

  lemma NoChildren(g: Graph, levels: Levels, id: NodeId)
    ensures Raise(g, levels, id, []) == levels && Present(g, []) == []
  {
  }

  lemma OneMoreChild(g: Graph, levels: Levels, id: NodeId, children: seq<NodeId>, c: NodeId)
    ensures Raise(g, levels, id, children + [c]) == RaiseOne(g, Raise(g, levels, id, children), id, c)
    ensures Present(g, children + [c]) == Present(g, children) + if Has(g, c) then [c] else []
  {
    assert (children + [c])[..|children|] == children;
  }

  function AtZero(ids: seq<NodeId>): Levels {
    if |ids| == 0 then Empty() else Set(AtZero(ids[..|ids| - 1]), ids[|ids| - 1], 0)
  }

  lemma RootsAreIn(g: Graph)
    ensures AllIn(g, RootsIn(g.nodes))
  {
  }

  ghost function FinalLevels(g: Graph): Levels {
    RootsAreIn(g);
    Assign(g, RootsIn(g.nodes), {}, AtZero(RootsIn(g.nodes)))
  }

  // ---- Positions ----

  /** The nodes on a level, in the order in which they were first given one. */
  function Group(keys: seq<NodeId>, levels: Levels, level: nat): seq<NodeId> {
    if |keys| == 0 then []
    else
      var before, id := Group(keys[..|keys| - 1], levels, level), keys[|keys| - 1];
      if LevelOf(levels, id) == level then before + [id] else before
  }

  function PlaceAt(level: nat, i: nat, size: nat): Place {
    Place(level as real * X_STEP, i as real * Y_STEP - size as real * Y_STEP / 2.0)
  }

  function Position(ids: seq<NodeId>, id: NodeId): (i: nat)
    ensures i <= |ids| && (i < |ids| ==> ids[i] == id) && (i == |ids| ==> id !in ids)
    ensures forall j :: 0 <= j < i ==> ids[j] != id
  {
    if |ids| == 0 || ids[0] == id then 0 else 1 + Position(ids[1..], id)
  }

  function PlaceOf(levels: Levels, id: NodeId): Place {
    var group := Group(levels.keys, levels, LevelOf(levels, id));
    PlaceAt(LevelOf(levels, id), Position(group, id), |group|)
  }

  /** New places for those of `ids` that are in the graph; the others stay where they were. */
  function PlacedFor(g: Graph, places: map<NodeId, Place>, levels: Levels, ids: set<NodeId>): map<NodeId, Place> {
    map id | id in places.Keys + ids && (id in places || Has(g, id)) ::
      if id in ids && Has(g, id) then PlaceOf(levels, id) else places[id]
  }

  function Placed(g: Graph, places: map<NodeId, Place>, levels: Levels): map<NodeId, Place> {
    PlacedFor(g, places, levels, levels.vals.Keys)
  }

  lemma PlacedOneMore(g: Graph, places: map<NodeId, Place>, levels: Levels, ids: set<NodeId>, id: NodeId)
    ensures PlacedFor(g, places, levels, ids + {id}) ==
            if Has(g, id) then PlacedFor(g, places, levels, ids)[id := PlaceOf(levels, id)] else PlacedFor(g, places, levels, ids)
  {
    hide PlaceOf, Has;
  }

  lemma {:induction false} GroupMember(keys: seq<NodeId>, levels: Levels, level: nat, id: NodeId)
    ensures id in Group(keys, levels, level) <==> id in keys && LevelOf(levels, id) == level
  {
    if |keys| > 0 {
      GroupMember(keys[..|keys| - 1], levels, level, id);
      assert keys == keys[..|keys| - 1] + [keys[|keys| - 1]];
    }
  }

  lemma {:induction false} GroupDistinct(keys: seq<NodeId>, levels: Levels, level: nat)
    requires Distinct(keys)
    ensures Distinct(Group(keys, levels, level))
  {
    if |keys| > 0 {
      GroupDistinct(keys[..|keys| - 1], levels, level);
      GroupMember(keys[..|keys| - 1], levels, level, keys[|keys| - 1]);
    }
  }

  lemma PlaceInGroup(levels: Levels, level: nat, i: nat)
    requires levels.Valid()
    requires var group := Group(levels.keys, levels, level); i < |group|
    ensures var group := Group(levels.keys, levels, level); PlaceOf(levels, group[i]) == PlaceAt(level, i, |group|)
  {
    var group := Group(levels.keys, levels, level);
    GroupMember(levels.keys, levels, level, group[i]);
    GroupDistinct(levels.keys, levels, level);
    assert Position(group, group[i]) == i;
  }

  ghost function OnLevel(keys: seq<NodeId>, levels: Levels, level: nat): set<NodeId> {
    set id | id in keys && LevelOf(levels, id) == level
  }

  lemma OnLevelNext(keys: seq<NodeId>, id: NodeId, levels: Levels, level: nat)
    requires id !in keys
    ensures |OnLevel(keys + [id], levels, level)| == |OnLevel(keys, levels, level)| + if LevelOf(levels, id) == level then 1 else 0
  {
    hide LevelOf;
    var before := OnLevel(keys, levels, level);
    if LevelOf(levels, id) == level {
      assert OnLevel(keys + [id], levels, level) == before + {id};
    } else {
      assert OnLevel(keys + [id], levels, level) == before;
    }
  }

  lemma {:induction false} GroupIsLevel(keys: seq<NodeId>, levels: Levels, level: nat)
    requires Distinct(keys)
    ensures |Group(keys, levels, level)| == |OnLevel(keys, levels, level)|
  {
    if |keys| > 0 {
      hide LevelOf, OnLevel;
      var front, id := keys[..|keys| - 1], keys[|keys| - 1];
      GroupIsLevel(front, levels, level);
      OnLevelNext(front, id, levels, level);
      assert keys == front + [id];
    }
  }

  /**
   A node stands 200 to the right for each level, and the nodes of a level stand below each other, 80
   apart, the first as far above the axis as half their number times 80.
   */
  lemma LevelSpread(levels: Levels, id: NodeId) returns (i: nat)
    requires levels.Valid() && id in levels.vals
    ensures var level := levels.vals[id];
            var n := |set x | x in levels.vals && levels.vals[x] == level|;
            i < n && PlaceOf(levels, id) == Place(200.0 * level as real, 80.0 * i as real - 40.0 * n as real)
  {
    var level := levels.vals[id];
    GroupIsLevel(levels.keys, levels, level);
    GroupMember(levels.keys, levels, level, id);
    assert OnLevel(levels.keys, levels, level) == set x | x in levels.vals && levels.vals[x] == level;
    i := Position(Group(levels.keys, levels, level), id);
  }

  /** No two nodes that have a level are put in the same place. */
  lemma PlacesDiffer(levels: Levels, a: NodeId, b: NodeId)
    requires levels.Valid() && a in levels.vals && b in levels.vals && a != b
    ensures PlaceOf(levels, a) != PlaceOf(levels, b)
  {
    var la, lb := LevelOf(levels, a), LevelOf(levels, b);
    if la == lb {
      var group := Group(levels.keys, levels, la);
      GroupMember(levels.keys, levels, la, a);
      GroupMember(levels.keys, levels, la, b);
      assert Position(group, a) != Position(group, b);
    }
  }

  // ---- What the levels mean ----

  ghost predicate Child(g: Graph, a: NodeId, b: NodeId) {
    b in ChildrenOf(g, a) && Has(g, b)
  }

  ghost predicate Root(g: Graph, id: NodeId) {
    id in RootsIn(g.nodes)
  }

  ghost predicate Path(g: Graph, p: seq<NodeId>) {
    && |p| > 0 && Root(g, p[0])
    && forall i, j :: 0 <= i < j < |p| && j == i + 1 ==> Child(g, p[i], p[j])
  }

  /** Some path of `n` edges leads from a root to the node. */
  ghost predicate PathTo(g: Graph, id: NodeId, n: nat) {
    exists p :: Path(g, p) && |p| == n + 1 && p[n] == id
  }

  ghost predicate LevelsArePaths(g: Graph, levels: Levels) {
    forall id <- levels.vals :: PathTo(g, id, levels.vals[id])
  }

  lemma PathExtends(g: Graph, id: NodeId, n: nat, child: NodeId)
    requires PathTo(g, id, n) && Child(g, id, child)
    ensures PathTo(g, child, n + 1)
  {
    hide Child, Root;
    var p :| Path(g, p) && |p| == n + 1 && p[n] == id;
    var q := p + [child];
    assert Path(g, q);
    assert |q| == n + 2 && q[n + 1] == child;
  }

  lemma PathOfNone(g: Graph, id: NodeId)
    requires Root(g, id)
    ensures PathTo(g, id, 0)
  {
    assert Path(g, [id]);
  }

  lemma RaiseOneKeeps(g: Graph, levels: Levels, id: NodeId, c: NodeId)
    requires LevelsArePaths(g, levels) && id in levels.vals && levels.Valid() && c in ChildrenOf(g, id)
    ensures var r := RaiseOne(g, levels, id, c);
            LevelsArePaths(g, r) && r.Valid() && r.vals.Keys == levels.vals.Keys + if Has(g, c) then {c} else {}
  {
    hide PathTo, Dict.Valid, Has, ChildrenOf;
    if Has(g, c) {
      assert Child(g, id, c);
      PathExtends(g, id, levels.vals[id], c);
    }
  }

  lemma {:induction false} RaiseKeeps(g: Graph, levels: Levels, id: NodeId, children: seq<NodeId>)
    requires LevelsArePaths(g, levels) && id in levels.vals && levels.Valid() && forall c <- children :: c in ChildrenOf(g, id)
    ensures var r := Raise(g, levels, id, children);
            LevelsArePaths(g, r) && r.Valid() && forall c :: c in r.vals <==> c in levels.vals || c in Present(g, children)
    decreases |children|
  {
    hide LevelsArePaths, Dict.Valid, Has, ChildrenOf, RaiseOne;
    if |children| > 0 {
      var front, c := children[..|children| - 1], children[|children| - 1];
      assert children == front + [c];
      RaiseKeeps(g, levels, id, front);
      RaiseOneKeeps(g, Raise(g, levels, id, front), id, c);
    }
  }

  /** Exactly what was visited or is waiting has a level, and so have the roots and the children of what was visited. */
  ghost predicate Progressing(g: Graph, queue: seq<NodeId>, visited: set<NodeId>, levels: Levels) {
    && AllIn(g, queue) && levels.Valid() && LevelsArePaths(g, levels)
    && (forall id :: id in levels.vals <==> id in visited || id in queue)
    && (forall r :: Root(g, r) ==> r in levels.vals)
    && (forall id, c :: id in visited && Child(g, id, c) ==> c in levels.vals)
  }

  lemma ProgressVisits(g: Graph, queue: seq<NodeId>, visited: set<NodeId>, levels: Levels)
    requires Progressing(g, queue, visited, levels) && |queue| > 0 && queue[0] !in visited
    ensures var id := queue[0];
            Progressing(g, queue[1..] + Present(g, ChildrenOf(g, id)), visited + {id}, Raise(g, levels, id, ChildrenOf(g, id)))
  {
    hide Raise, LevelsArePaths, Dict.Valid, Root, ChildrenOf, Has, Ids;
    var id := queue[0];
    assert id in queue && queue == [id] + queue[1..];
    Shrinks(g, visited, id);
    RaiseKeeps(g, levels, id, ChildrenOf(g, id));
  }

  lemma ProgressSkips(g: Graph, queue: seq<NodeId>, visited: set<NodeId>, levels: Levels)
    requires Progressing(g, queue, visited, levels) && |queue| > 0 && queue[0] in visited
    ensures Progressing(g, queue[1..], visited, levels)
  {
    hide LevelsArePaths, Dict.Valid, Root, Child, Ids;
    assert queue == [queue[0]] + queue[1..];
  }

  lemma QueueIn(g: Graph, queue: seq<NodeId>, visited: set<NodeId>, levels: Levels)
    requires Progressing(g, queue, visited, levels)
    ensures AllIn(g, queue) && (|queue| > 0 ==> queue[0] in Ids(g))
  {
  }

  lemma {:induction false} AssignProgresses(g: Graph, queue: seq<NodeId>, visited: set<NodeId>, levels: Levels)
    returns (v: set<NodeId>)
    requires AllIn(g, queue) && Progressing(g, queue, visited, levels)
    ensures Progressing(g, [], v, Assign(g, queue, visited, levels))
    decreases |Ids(g) - visited|, |queue|
  {
    hide Progressing, Raise, Ids;
    QueueIn(g, queue, visited, levels);
    if |queue| == 0 {
      assert queue == [];
      v := visited;
    } else if queue[0] in visited {
      ProgressSkips(g, queue, visited, levels);
      v := AssignProgresses(g, queue[1..], visited, levels);
    } else {
      var id := queue[0];
      ProgressVisits(g, queue, visited, levels);
      Shrinks(g, visited, id);
      v := AssignProgresses(g, queue[1..] + Present(g, ChildrenOf(g, id)), visited + {id}, Raise(g, levels, id, ChildrenOf(g, id)));
    }
  }

  lemma {:induction false} RootsAtZero(g: Graph, ids: seq<NodeId>)
    requires forall id <- ids :: Root(g, id)
    ensures var r := AtZero(ids); r.Valid() && LevelsArePaths(g, r) && forall id :: id in r.vals <==> id in ids
  {
    if |ids| > 0 {
      hide Root, PathTo, Dict.Valid;
      var front, id := ids[..|ids| - 1], ids[|ids| - 1];
      assert ids == front + [id];
      RootsAtZero(g, front);
      PathOfNone(g, id);
    }
  }

  /**
   On any graph, however its edges run, the assignment of levels ends; a node has a level exactly if
   some path leads to it from a root, and the level is the length of such a path.
   */
  lemma FinalLevelsMeaning(g: Graph)
    ensures var r := FinalLevels(g);
            && r.Valid() && LevelsArePaths(g, r)
            && forall id :: id in r.vals <==> exists n: nat :: PathTo(g, id, n)
  {
    var v := FinalProgress(g);
    var r := FinalLevels(g);
    hide Root, Child, Progressing, FinalLevels, Path;
    AllHavePaths(g, v, r);
    forall id, n: nat | PathTo(g, id, n) ensures id in r.vals {
      var p :| Path(g, p) && |p| == n + 1 && p[n] == id;
      PathIsKnown(g, v, r, p);
    }
    forall id | id in r.vals ensures exists n: nat :: PathTo(g, id, n) {
      assert PathTo(g, id, r.vals[id]);
    }
  }

  lemma AllHavePaths(g: Graph, visited: set<NodeId>, levels: Levels)
    requires Progressing(g, [], visited, levels)
    ensures levels.Valid() && LevelsArePaths(g, levels)
  {
  }

  lemma FinalProgress(g: Graph) returns (v: set<NodeId>)
    ensures Progressing(g, [], v, FinalLevels(g))
  {
    var roots := RootsIn(g.nodes);
    RootsAreIn(g);
    StartProgress(g);
    hide Progressing, RootsIn, AtZero;
    v := AssignProgresses(g, roots, {}, AtZero(roots));
  }

  lemma StartProgress(g: Graph)
    ensures Progressing(g, RootsIn(g.nodes), {}, AtZero(RootsIn(g.nodes)))
  {
    hide RootsIn, LevelsArePaths, AtZero, Dict.Valid, Ids;
    RootsAreIn(g);
    RootsAtZero(g, RootsIn(g.nodes));
  }

  lemma {:induction false} PathIsKnown(g: Graph, visited: set<NodeId>, levels: Levels, p: seq<NodeId>)
    requires Progressing(g, [], visited, levels) && Path(g, p)
    ensures p[|p| - 1] in levels.vals
    decreases |p|
  {
    hide Root, Child, LevelsArePaths, Dict.Valid;
    if |p| > 1 {
      PathIsKnown(g, visited, levels, p[..|p| - 1]);
      assert Child(g, p[|p| - 2], p[|p| - 1]);
    }
  }
}
