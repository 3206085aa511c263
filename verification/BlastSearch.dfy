/**
 The blast-radius search as steps on values: a queue of partial paths, and for each service
 reached the best entry found so far.  An entry is replaced when its stored, rounded probability
 is below the unrounded probability of a new path; only paths above the cut-off are extended.
 The way of rounding is a parameter.
 */
module BlastSearch {
  import opened Base
  import opened Dicts
  import opened Rounding

  datatype CausalEdge = CausalEdge(
    source: string, target: string, edgeType: string, callVolume: real,
    failureCorrelation: real, avgPropagationMs: int, observedCount: int, lastUpdated: string)

  type Edges = Dict<(string, string), CausalEdge>

  ghost predicate ValidEdges(g: Edges) {
    g.Valid() && forall k <- g.vals.Keys :: g.vals[k].source == k.0 && g.vals[k].target == k.1
  }

  const CUTOFF: real := 0.05

  datatype Item = Item(current: string, prob: real, ms: int, path: seq<string>)
  datatype Entry = Entry(serviceId: string, probability: real, ms: int, path: seq<string>)
  datatype State = State(queue: seq<Item>, visited: Dict<string, Entry>)

  /** The edges that leave `u`, in the order in which they were added. */
  function OutEdges(es: seq<CausalEdge>, u: string): (r: seq<CausalEdge>)
    ensures |r| <= |es|
    ensures forall e :: e in r <==> e in es && e.source == u
  {
    if |es| == 0 then []
    else
      var r := OutEdges(es[..|es| - 1], u);
      assert es == es[..|es| - 1] + [es[|es| - 1]];
      if es[|es| - 1].source == u then r + [es[|es| - 1]] else r
  }

  /** The probability of a path, after one more edge. */
  function Along(p: real, e: CausalEdge): real {
    p * e.failureCorrelation
  }

  /** The path of `item`, followed by the edge `e`. */
  function Extend(item: Item, e: CausalEdge): Item {
    Item(e.target, Along(item.prob, e), item.ms + e.avgPropagationMs, item.path + [e.target])
  }

  function EntryOf(rnd: real -> real, i: Item): Entry {
    Entry(i.current, rnd(i.prob), i.ms, i.path)
  }

  /** What the loop body does with one edge that leaves the service of `item`. */
  function Relax(origin: string, rnd: real -> real, item: Item, e: CausalEdge, s: State): State {
    var next := Extend(item, e);
    if e.target == origin then s
    else if e.target in s.visited.vals && !(s.visited.vals[e.target].probability < next.prob) then s
    else
      State(
        if next.prob > CUTOFF then s.queue + [next] else s.queue,
        Set(s.visited, e.target, EntryOf(rnd, next)))
  }

  function RelaxAll(origin: string, rnd: real -> real, item: Item, es: seq<CausalEdge>, n: nat, s: State): State
    requires n <= |es|
  {
    if n == 0 then s else Relax(origin, rnd, item, es[n - 1], RelaxAll(origin, rnd, item, es, n - 1, s))
  }

  /** One round of the loop; nothing happens once the queue is empty. */
  function Step(g: Edges, origin: string, rnd: real -> real, s: State): State
    requires g.Valid()
  {
    if |s.queue| == 0 then s
    else
      var out := OutEdges(Values(g), s.queue[0].current);
      RelaxAll(origin, rnd, s.queue[0], out, |out|, State(s.queue[1..], s.visited))
  }

  function Start(origin: string): State {
    State([Item(origin, 1.0, 0, [origin])], Empty())
  }

  function After(g: Edges, origin: string, rnd: real -> real, n: nat): State
    requires g.Valid()
  {
    if n == 0 then Start(origin) else Step(g, origin, rnd, After(g, origin, rnd, n - 1))
  }

  // ---- Walks ----

  ghost predicate IsWalk(g: Edges, path: seq<string>) {
    |path| > 0 && forall k :: 0 <= k < |path| - 1 ==> (path[k], path[k + 1]) in g.vals
  }

  /** The product of the correlations along a walk. */
  ghost function Product(g: Edges, path: seq<string>): real {
    if |path| <= 1 || (path[|path| - 2], path[|path| - 1]) !in g.vals then 1.0
    else Along(Product(g, path[..|path| - 1]), g.vals[(path[|path| - 2], path[|path| - 1])])
  }

  ghost function Delay(g: Edges, path: seq<string>): int {
    if |path| <= 1 || (path[|path| - 2], path[|path| - 1]) !in g.vals then 0
    else Delay(g, path[..|path| - 1]) + g.vals[(path[|path| - 2], path[|path| - 1])].avgPropagationMs
  }

  /** A walk from `origin` that never comes back to it and whose proper prefixes stay above the cut-off. */
  ghost predicate Explorable(g: Edges, origin: string, path: seq<string>) {
    && IsWalk(g, path) && path[0] == origin
    && (forall k :: 1 <= k < |path| ==> path[k] != origin)
    && (forall k :: 1 <= k < |path| ==> Product(g, path[..k]) > CUTOFF)
  }

  // ---- What every round keeps ----

  ghost predicate GoodItem(g: Edges, origin: string, i: Item) {
    && Explorable(g, origin, i.path) && i.path[|i.path| - 1] == i.current
    && i.prob == Product(g, i.path) && i.prob > CUTOFF && i.ms == Delay(g, i.path)
  }

  ghost predicate GoodEntry(g: Edges, origin: string, rnd: real -> real, t: string, e: Entry) {
    && e.serviceId == t && |e.path| > 1 && Explorable(g, origin, e.path) && e.path[|e.path| - 1] == t
    && e.probability == rnd(Product(g, e.path)) && e.ms == Delay(g, e.path)
  }

  ghost predicate Witnessed(g: Edges, origin: string, rnd: real -> real, s: State) {
    && s.visited.Valid()
    && origin !in s.visited.vals
    && (forall i :: 0 <= i < |s.queue| ==> GoodItem(g, origin, s.queue[i]))
    && (forall t <- s.visited.vals.Keys :: GoodEntry(g, origin, rnd, t, s.visited.vals[t]))
  }

  /** `p` is the probability the search has for `u`: that of the path stored for it. */
  ghost predicate Current(g: Edges, origin: string, visited: map<string, Entry>, u: string, p: real) {
    if u == origin then p == 1.0 else u in visited && p == Product(g, visited[u].path)
  }

  /** The edge from `u` to `v` has nothing to add to what is stored for `v`. */
  ghost predicate EdgeSettled(g: Edges, rnd: real -> real, visited: map<string, Entry>, u: string, p: real, v: string)
    requires (u, v) in g.vals
  {
    v in visited && visited[v].probability >= rnd(Along(p, g.vals[(u, v)]))
  }

  ghost predicate Settled(g: Edges, origin: string, rnd: real -> real, visited: map<string, Entry>, u: string, p: real) {
    forall v :: v != origin && (u, v) in g.vals ==> EdgeSettled(g, rnd, visited, u, p, v)
  }

  ghost predicate Pending(queue: seq<Item>, u: string, p: real) {
    exists i :: 0 <= i < |queue| && queue[i].current == u && queue[i].prob == p
  }

  /** Every service whose path may be extended has been, or waits in the queue, or is the one being extended. */
  ghost predicate Covered(g: Edges, origin: string, rnd: real -> real, s: State, busy: Option<Item>) {
    forall u, p :: Current(g, origin, s.visited.vals, u, p) && p > CUTOFF ==>
      || Settled(g, origin, rnd, s.visited.vals, u, p)
      || Pending(s.queue, u, p)
      || (busy.Some? && busy.value.current == u && busy.value.prob == p)
  }

  /** The edge `e` that leaves `item` has nothing to add to what is stored for its target. */
  ghost predicate EdgeDone(origin: string, rnd: real -> real, s: State, item: Item, e: CausalEdge) {
    e.target != origin ==>
      (e.target in s.visited.vals && s.visited.vals[e.target].probability >= rnd(Along(item.prob, e)))
  }

  ghost predicate DoneUpTo(origin: string, rnd: real -> real, s: State, item: Item, es: seq<CausalEdge>, n: nat) {
    forall k :: 0 <= k < n <= |es| ==> EdgeDone(origin, rnd, s, item, es[k])
  }

  lemma ProductSnoc(g: Edges, path: seq<string>, v: string)
    requires |path| > 0 && (path[|path| - 1], v) in g.vals
    ensures Product(g, path + [v]) == Along(Product(g, path), g.vals[(path[|path| - 1], v)])
    ensures Delay(g, path + [v]) == Delay(g, path) + g.vals[(path[|path| - 1], v)].avgPropagationMs
  {
    assert (path + [v])[..|path|] == path;
  }

  /** A walk that stays has probability 1 and no delay; a further edge multiplies by its correlation and adds its delay. */
  lemma ProductMeaning(g: Edges, path: seq<string>, v: string)
    requires |path| > 0 && (path[|path| - 1], v) in g.vals
    ensures Product(g, path[..1]) == 1.0 && Delay(g, path[..1]) == 0
    ensures var e := g.vals[(path[|path| - 1], v)];
            && Product(g, path + [v]) == Product(g, path) * e.failureCorrelation
            && Delay(g, path + [v]) == Delay(g, path) + e.avgPropagationMs
  {
    ProductSnoc(g, path, v);
  }

  lemma ExploreSnoc(g: Edges, origin: string, path: seq<string>, v: string)
    requires Explorable(g, origin, path) && Product(g, path) > CUTOFF
    requires v != origin && (path[|path| - 1], v) in g.vals
    ensures Explorable(g, origin, path + [v])
  {
    hide Product;
    var next := path + [v];
    forall k | 1 <= k < |next| ensures Product(g, next[..k]) > CUTOFF {
      assert next[..k] == path[..k];
      if k == |path| { assert path[..k] == path; }
    }
  }

  ghost predicate EdgeFrom(g: Edges, u: string, e: CausalEdge) {
    e.source == u && (u, e.target) in g.vals && g.vals[(u, e.target)] == e
  }

  lemma ExtendGood(g: Edges, origin: string, rnd: real -> real, item: Item, e: CausalEdge)
    requires GoodItem(g, origin, item) && e.target != origin && EdgeFrom(g, item.current, e)
    ensures Extend(item, e).prob == Product(g, Extend(item, e).path)
    ensures GoodEntry(g, origin, rnd, e.target, EntryOf(rnd, Extend(item, e)))
    ensures Extend(item, e).prob > CUTOFF ==> GoodItem(g, origin, Extend(item, e))
  {
    ProductSnoc(g, item.path, e.target);
    ExploreSnoc(g, origin, item.path, e.target);
  }

  // ---- One edge ----

  /** Nothing that is stored is ever lowered. */
  ghost predicate Raised(old': map<string, Entry>, new': map<string, Entry>) {
    forall t <- old'.Keys :: t in new' && new'[t].probability >= old'[t].probability
  }

  lemma RelaxRaises(g: Edges, origin: string, rnd: real -> real, delta: real, item: Item, e: CausalEdge, s: State)
    requires IsRounding(rnd, delta) && Witnessed(g, origin, rnd, s)
    ensures Raised(s.visited.vals, Relax(origin, rnd, item, e, s).visited.vals)
  {
    hide Product, Delay, Explorable;
    var next := Extend(item, e);
    if e.target in s.visited.vals && s.visited.vals[e.target].probability < next.prob {
      var old' := s.visited.vals[e.target];
      assert GoodEntry(g, origin, rnd, e.target, old');
      assert rnd(old'.probability) == old'.probability;
      assert rnd(old'.probability) <= rnd(next.prob);
    }
  }

  lemma RelaxWitnessed(g: Edges, origin: string, rnd: real -> real, item: Item, e: CausalEdge, s: State)
    requires Witnessed(g, origin, rnd, s) && GoodItem(g, origin, item) && EdgeFrom(g, item.current, e)
    ensures Witnessed(g, origin, rnd, Relax(origin, rnd, item, e, s))
  {
    hide GoodItem, GoodEntry;
    if e.target != origin {
      ExtendGood(g, origin, rnd, item, e);
    }
  }

  /** Afterwards the edge itself is settled. */
  lemma RelaxSettles(g: Edges, origin: string, rnd: real -> real, delta: real, item: Item, e: CausalEdge, s: State)
    requires IsRounding(rnd, delta) && Witnessed(g, origin, rnd, s)
    ensures EdgeDone(origin, rnd, Relax(origin, rnd, item, e, s), item, e)
  {
    hide Product, Delay, Explorable;
    var next := Extend(item, e);
    if e.target in s.visited.vals && s.visited.vals[e.target].probability >= next.prob {
      var old' := s.visited.vals[e.target];
      assert GoodEntry(g, origin, rnd, e.target, old');
      assert rnd(old'.probability) == old'.probability;
      assert rnd(next.prob) <= rnd(old'.probability);
    }
  }

  lemma SettledStays(g: Edges, origin: string, rnd: real -> real, old': map<string, Entry>, new': map<string, Entry>, u: string, p: real)
    requires Raised(old', new') && Settled(g, origin, rnd, old', u, p)
    ensures Settled(g, origin, rnd, new', u, p)
  {
    forall v | v != origin && (u, v) in g.vals ensures EdgeSettled(g, rnd, new', u, p, v) {
      assert EdgeSettled(g, rnd, old', u, p, v);
    }
  }

  lemma PendingStays(queue: seq<Item>, more: seq<Item>, u: string, p: real)
    requires Pending(queue, u, p)
    ensures Pending(queue + more, u, p)
  {
    var i :| 0 <= i < |queue| && queue[i].current == u && queue[i].prob == p;
    assert (queue + more)[i] == queue[i];
  }

  lemma RelaxCovered(g: Edges, origin: string, rnd: real -> real, delta: real, item: Item, e: CausalEdge, s: State, busy: Option<Item>)
    requires IsRounding(rnd, delta) && Witnessed(g, origin, rnd, s) && GoodItem(g, origin, item) && EdgeFrom(g, item.current, e)
    requires Covered(g, origin, rnd, s, busy)
    ensures Covered(g, origin, rnd, Relax(origin, rnd, item, e, s), busy)
  {
    hide Product, Delay, Explorable, Settled, Pending, Raised, Witnessed, IsRounding;
    var s' := Relax(origin, rnd, item, e, s);
    var next := Extend(item, e);
    RelaxRaises(g, origin, rnd, delta, item, e, s);
    forall u, p | Current(g, origin, s'.visited.vals, u, p) && p > CUTOFF
      ensures Settled(g, origin, rnd, s'.visited.vals, u, p) || Pending(s'.queue, u, p)
              || (busy.Some? && busy.value.current == u && busy.value.prob == p)
    {
      if s' != s && u == e.target {
        ExtendGood(g, origin, rnd, item, e);
        assert s'.queue[|s.queue|] == next;
        LastPending(s'.queue, u, p);
      } else {
        assert Current(g, origin, s.visited.vals, u, p);
        if Settled(g, origin, rnd, s.visited.vals, u, p) {
          SettledStays(g, origin, rnd, s.visited.vals, s'.visited.vals, u, p);
        } else if Pending(s.queue, u, p) {
          PendingStays(s.queue, if |s'.queue| > |s.queue| then [next] else [], u, p);
          assert s.queue + [] == s.queue;
        }
      }
    }
  }

  lemma LastPending(queue: seq<Item>, u: string, p: real)
    requires |queue| > 0 && queue[|queue| - 1].current == u && queue[|queue| - 1].prob == p
    ensures Pending(queue, u, p)
  {
  }

  // ---- All the edges of one item ----

  ghost predicate EdgesFrom(g: Edges, u: string, es: seq<CausalEdge>) {
    forall k :: 0 <= k < |es| ==> EdgeFrom(g, u, es[k])
  }

  lemma {:induction false} RelaxAllKeeps(
    g: Edges, origin: string, rnd: real -> real, delta: real, item: Item, es: seq<CausalEdge>, n: nat, s: State)
    requires IsRounding(rnd, delta) && n <= |es| && EdgesFrom(g, item.current, es) && GoodItem(g, origin, item)
    requires Witnessed(g, origin, rnd, s) && Covered(g, origin, rnd, s, Some(item))
    ensures var s' := RelaxAll(origin, rnd, item, es, n, s);
            && Witnessed(g, origin, rnd, s') && Covered(g, origin, rnd, s', Some(item))
            && DoneUpTo(origin, rnd, s', item, es, n)
  {
    if n > 0 {
      hide Witnessed, Covered, GoodItem, IsRounding, Relax, DoneUpTo;
      RelaxAllKeeps(g, origin, rnd, delta, item, es, n - 1, s);
      var s0 := RelaxAll(origin, rnd, item, es, n - 1, s);
      var e := es[n - 1];
      assert EdgeFrom(g, item.current, e);
      RelaxWitnessed(g, origin, rnd, item, e, s0);
      RelaxCovered(g, origin, rnd, delta, item, e, s0, Some(item));
      RelaxRaises(g, origin, rnd, delta, item, e, s0);
      RelaxSettles(g, origin, rnd, delta, item, e, s0);
      DoneStays(origin, rnd, s0, Relax(origin, rnd, item, e, s0), item, es, n);
    } else {
      NothingDone(origin, rnd, s, item, es);
    }
  }

  lemma NothingDone(origin: string, rnd: real -> real, s: State, item: Item, es: seq<CausalEdge>)
    ensures DoneUpTo(origin, rnd, s, item, es, 0)
  {
  }

  lemma DoneStays(origin: string, rnd: real -> real, s0: State, s1: State, item: Item, es: seq<CausalEdge>, n: nat)
    requires 0 < n <= |es| && DoneUpTo(origin, rnd, s0, item, es, n - 1)
    requires Raised(s0.visited.vals, s1.visited.vals) && EdgeDone(origin, rnd, s1, item, es[n - 1])
    ensures DoneUpTo(origin, rnd, s1, item, es, n)
  {
    forall k | 0 <= k < n ensures EdgeDone(origin, rnd, s1, item, es[k]) {
      if k < n - 1 {
        assert EdgeDone(origin, rnd, s0, item, es[k]);
      }
    }
  }

  lemma OutEdgesComplete(g: Edges, u: string)
    requires ValidEdges(g)
    ensures EdgesFrom(g, u, OutEdges(Values(g), u))
    ensures forall v :: (u, v) in g.vals ==> g.vals[(u, v)] in OutEdges(Values(g), u)
  {
    var out := OutEdges(Values(g), u);
    forall k | 0 <= k < |out| ensures EdgeFrom(g, u, out[k]) {
      var i :| 0 <= i < |g.keys| && Values(g)[i] == out[k];
      assert g.keys[i] == (out[k].source, out[k].target);
    }
    forall v | (u, v) in g.vals ensures g.vals[(u, v)] in out {
      assert (u, v) in g.keys;
      var i :| 0 <= i < |g.keys| && g.keys[i] == (u, v);
      assert Values(g)[i] == g.vals[(u, v)];
    }
  }

  // ---- One round, and all rounds ----

  ghost predicate Invariant(g: Edges, origin: string, rnd: real -> real, s: State) {
    Witnessed(g, origin, rnd, s) && Covered(g, origin, rnd, s, None)
  }

  lemma StepKeeps(g: Edges, origin: string, rnd: real -> real, delta: real, s: State)
    requires ValidEdges(g) && IsRounding(rnd, delta) && Invariant(g, origin, rnd, s)
    ensures Invariant(g, origin, rnd, Step(g, origin, rnd, s))
  {
    if |s.queue| > 0 {
      hide Product, Delay, Explorable, IsRounding, OutEdges, Settled, GoodEntry;
      var item := s.queue[0];
      var s0 := State(s.queue[1..], s.visited);
      var out := OutEdges(Values(g), item.current);
      assert GoodItem(g, origin, item);
      PopCovered(g, origin, rnd, s);
      OutEdgesComplete(g, item.current);
      RelaxAllKeeps(g, origin, rnd, delta, item, out, |out|, s0);
      var s1 := RelaxAll(origin, rnd, item, out, |out|, s0);
      ItemSettled(g, origin, rnd, s1, item, out);
    }
  }

  lemma PopCovered(g: Edges, origin: string, rnd: real -> real, s: State)
    requires |s.queue| > 0 && Covered(g, origin, rnd, s, None)
    ensures Covered(g, origin, rnd, State(s.queue[1..], s.visited), Some(s.queue[0]))
  {
    hide Settled, Product;
    forall u, p | Pending(s.queue, u, p) && !(s.queue[0].current == u && s.queue[0].prob == p)
      ensures Pending(s.queue[1..], u, p)
    {
      var i :| 0 <= i < |s.queue| && s.queue[i].current == u && s.queue[i].prob == p;
      assert s.queue[1..][i - 1] == s.queue[i];
    }
  }

  lemma ItemSettled(g: Edges, origin: string, rnd: real -> real, s: State, item: Item, out: seq<CausalEdge>)
    requires ValidEdges(g) && DoneUpTo(origin, rnd, s, item, out, |out|)
    requires EdgesFrom(g, item.current, out)
    requires forall v :: (item.current, v) in g.vals ==> g.vals[(item.current, v)] in out
    requires Covered(g, origin, rnd, s, Some(item))
    ensures Covered(g, origin, rnd, s, None)
  {
    hide Product, Pending;
    forall v | v != origin && (item.current, v) in g.vals
      ensures EdgeSettled(g, rnd, s.visited.vals, item.current, item.prob, v)
    {
      var e := g.vals[(item.current, v)];
      var k :| 0 <= k < |out| && out[k] == e;
      assert EdgeFrom(g, item.current, out[k]) && EdgeDone(origin, rnd, s, item, out[k]);
    }
    assert Settled(g, origin, rnd, s.visited.vals, item.current, item.prob);
  }

  lemma StartInvariant(g: Edges, origin: string, rnd: real -> real)
    ensures Invariant(g, origin, rnd, Start(origin))
  {
    var s := Start(origin);
    assert s.queue[0].path == [origin];
    assert Pending(s.queue, origin, 1.0);
  }

  lemma {:induction false} AfterInvariant(g: Edges, origin: string, rnd: real -> real, delta: real, n: nat)
    requires ValidEdges(g) && IsRounding(rnd, delta)
    ensures Invariant(g, origin, rnd, After(g, origin, rnd, n))
  {
    hide Invariant, IsRounding;
    if n == 0 {
      StartInvariant(g, origin, rnd);
    } else {
      AfterInvariant(g, origin, rnd, delta, n - 1);
      StepKeeps(g, origin, rnd, delta, After(g, origin, rnd, n - 1));
    }
  }
}
