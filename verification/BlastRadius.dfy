/** What the blast-radius search delivers: it stops, and what it stores is close to the best. */
module BlastRadius {
  import opened BlastSearch
  import opened Dicts
  import opened Rounding

  // ---- The search stops unless a cycle of correlations 1 can be followed ----

  ghost predicate BelowOne(g: Edges) {
    forall k <- g.vals.Keys :: g.vals[k].failureCorrelation < 1.0
  }

  ghost predicate AtMost(g: Edges, c: real) {
    forall k <- g.vals.Keys :: g.vals[k].failureCorrelation <= c
  }

  /** The edge exists and loses nothing. */
  ghost predicate UnitEdge(g: Edges, u: string, v: string) {
    (u, v) in g.vals && g.vals[(u, v)].failureCorrelation == 1.0
  }

  /** A walk along edges that lose nothing and never lead to the origin. */
  ghost predicate UnitWalk(g: Edges, origin: string, p: seq<string>) {
    |p| > 0 && forall i :: 0 <= i < |p| - 1 ==> UnitStep(g, origin, p, i)
  }

  ghost predicate UnitStep(g: Edges, origin: string, p: seq<string>, i: nat)
    requires i + 1 < |p|
  {
    UnitEdge(g, p[i], p[i + 1]) && p[i + 1] != origin
  }

  /** No correlation exceeds 1, and no cycle that avoids the origin consists of correlations of 1 only. */
  ghost predicate Fading(g: Edges, origin: string) {
    AtMost(g, 1.0) && forall p :: UnitWalk(g, origin, p) && |p| > 1 ==> p[0] != p[|p| - 1]
  }

  lemma BelowOneFades(g: Edges, origin: string)
    requires BelowOne(g)
    ensures Fading(g, origin)
  {
    forall u, v ensures !UnitEdge(g, u, v) {
      assert (u, v) in g.vals ==> (u, v) in g.vals.Keys;
    }
    forall p | |p| > 1 ensures !UnitWalk(g, origin, p) {
      assert !UnitStep(g, origin, p, 0);
    }
  }

  ghost function Pow(b: nat, n: nat): nat {
    if n == 0 then 1 else b * Pow(b, n - 1)
  }

  lemma {:induction false} LargestBelowOne(es: seq<CausalEdge>) returns (c: real)
    ensures 0.0 < c < 1.0 && forall e :: e in es && e.failureCorrelation < 1.0 ==> e.failureCorrelation <= c
  {
    c := 0.5;
    var i := 0;
    while i < |es|
      invariant 0 <= i <= |es| && 0.0 < c < 1.0
      invariant forall k :: 0 <= k < i && es[k].failureCorrelation < 1.0 ==> es[k].failureCorrelation <= c
    {
      if c < es[i].failureCorrelation < 1.0 { c := es[i].failureCorrelation; }
      i := i + 1;
    }
  }

  /** Above the cut-off, one more edge takes at least `CUTOFF * (1 - c)` from a product. */
  lemma EdgeTakes(p: real, e: CausalEdge, c: real)
    requires p > CUTOFF && e.failureCorrelation <= c < 1.0
    ensures Along(p, e) <= p - CUTOFF * (1.0 - c)
  {
    MulMonotone(e.failureCorrelation, c, p);
    MulMonotone(CUTOFF, p, 1.0 - c);
  }

  /** The edges of a walk that lose something. */
  ghost function Losses(g: Edges, path: seq<string>): nat {
    if |path| <= 1 then 0
    else Losses(g, path[..|path| - 1]) + if UnitEdge(g, path[|path| - 2], path[|path| - 1]) then 0 else 1
  }

  /** How many edges at the end of a walk lose nothing. */
  ghost function UnitTail(g: Edges, path: seq<string>): nat {
    if |path| <= 1 || !UnitEdge(g, path[|path| - 2], path[|path| - 1]) then 0 else UnitTail(g, path[..|path| - 1]) + 1
  }

  /** All correlations below 1 are at most `c`. */
  ghost predicate Gap(g: Edges, c: real) {
    c < 1.0 && AtMost(g, 1.0) && forall k <- g.vals.Keys :: g.vals[k].failureCorrelation < 1.0 ==> g.vals[k].failureCorrelation <= c
  }

  lemma EdgeLoses(g: Edges, u: string, v: string, p: real, c: real)
    requires Gap(g, c) && (u, v) in g.vals && p > CUTOFF
    ensures Along(p, g.vals[(u, v)]) <= p - if !UnitEdge(g, u, v) then CUTOFF * (1.0 - c) else 0.0
  {
    assert (u, v) in g.vals.Keys;
    if !UnitEdge(g, u, v) {
      EdgeTakes(p, g.vals[(u, v)], c);
    }
  }

  /** A walk whose proper prefixes stay above the cut-off. */
  ghost predicate StaysAbove(g: Edges, path: seq<string>) {
    IsWalk(g, path) && forall k :: 1 <= k < |path| ==> Product(g, path[..k]) > CUTOFF
  }

  lemma FrontStaysAbove(g: Edges, path: seq<string>)
    requires StaysAbove(g, path) && |path| > 1
    ensures var n := |path| - 1;
            StaysAbove(g, path[..n]) && Product(g, path[..n]) > CUTOFF && (path[n - 1], path[n]) in g.vals
  {
    hide Product, IsWalk;
    var n := |path| - 1;
    FrontIsWalk(g, path);
    forall k | 1 <= k < n ensures Product(g, path[..n][..k]) > CUTOFF { assert path[..n][..k] == path[..k]; }
    if n == 1 { NoEdge(g, path[..n]); }
  }

  lemma FrontIsWalk(g: Edges, path: seq<string>)
    requires IsWalk(g, path) && |path| > 1
    ensures var n := |path| - 1; IsWalk(g, path[..n]) && (path[n - 1], path[n]) in g.vals
  {
  }

  lemma LastEdge(g: Edges, path: seq<string>)
    requires |path| > 1 && (path[|path| - 2], path[|path| - 1]) in g.vals
    ensures var n := |path| - 1;
            && Product(g, path) == Along(Product(g, path[..n]), g.vals[(path[n - 1], path[n])])
            && Losses(g, path) == Losses(g, path[..n]) + if !UnitEdge(g, path[n - 1], path[n]) then 1 else 0
  {
    hide Along, UnitEdge;
  }

  lemma {:induction false} ProductDecays(g: Edges, path: seq<string>, c: real, take: real)
    requires Gap(g, c) && StaysAbove(g, path) && take == CUTOFF * (1.0 - c)
    ensures Product(g, path) <= 1.0 - Losses(g, path) as real * take
    decreases |path|
  {
    hide *;
    if |path| > 1 {
      var n := |path| - 1;
      FrontStaysAbove(g, path);
      LastEdge(g, path);
      ProductDecays(g, path[..n], c, take);
      EdgeLoses(g, path[n - 1], path[n], Product(g, path[..n]), c);
      Decayed(Product(g, path[..n]), Product(g, path), Losses(g, path[..n]), !UnitEdge(g, path[n - 1], path[n]), take);
    } else {
      NoEdge(g, path);
    }
  }

  lemma Decayed(before: real, after: real, losses: nat, loses: bool, take: real)
    requires before <= 1.0 - losses as real * take && after <= before - if loses then take else 0.0
    ensures after <= 1.0 - (losses + if loses then 1 else 0) as real * take
  {
    assert (losses as real + 1.0) * take == losses as real * take + take;
  }

  lemma NoEdge(g: Edges, path: seq<string>)
    requires |path| <= 1
    ensures Product(g, path) == 1.0 && Losses(g, path) == 0
  {
  }

  /** The end of a walk that loses nothing, as a walk of its own. */
  lemma {:induction false} UnitTailIsWalk(g: Edges, origin: string, path: seq<string>)
    requires |path| > 0 && forall k :: 1 <= k < |path| ==> path[k] != origin
    ensures UnitTail(g, path) < |path| && UnitWalk(g, origin, path[|path| - 1 - UnitTail(g, path)..])
    decreases |path|
  {
    hide UnitEdge;
    if |path| > 1 && UnitEdge(g, path[|path| - 2], path[|path| - 1]) {
      var p := path[..|path| - 1];
      UnitTailIsWalk(g, origin, p);
      var w := p[|p| - 1 - UnitTail(g, p)..];
      assert path[|path| - 1 - UnitTail(g, path)..] == w + [path[|path| - 1]];
      LongerUnitWalk(g, origin, w, path[|path| - 1]);
    }
  }

  lemma LongerUnitWalk(g: Edges, origin: string, w: seq<string>, v: string)
    requires UnitWalk(g, origin, w) && UnitEdge(g, w[|w| - 1], v) && v != origin
    ensures UnitWalk(g, origin, w + [v])
  {
    hide UnitEdge;
    var p := w + [v];
    forall i | 0 <= i < |p| - 1 ensures UnitStep(g, origin, p, i) {
      assert p[i] == w[i];
      if i < |w| - 1 {
        assert UnitStep(g, origin, w, i) && p[i + 1] == w[i + 1];
      }
    }
  }

  /** A sequence without repetition is no longer than a set that holds its elements. */
  lemma {:induction false} NoLongerThan(s: seq<string>, all: set<string>)
    requires (forall i, j :: 0 <= i < j < |s| ==> s[i] != s[j]) && forall x <- s :: x in all
    ensures |s| <= |all|
  {
    if |s| > 0 {
      var front, last := s[..|s| - 1], s[|s| - 1];
      assert last in s && forall x <- front :: x in s;
      NoLongerThan(front, all - {last});
    }
  }

  ghost function Targets(keys: seq<(string, string)>): (r: set<string>)
    ensures |r| <= |keys| && forall k <- keys :: k.1 in r
  {
    if |keys| == 0 then {}
    else
      assert keys == keys[..|keys| - 1] + [keys[|keys| - 1]];
      Targets(keys[..|keys| - 1]) + {keys[|keys| - 1].1}
  }

  lemma SubWalk(g: Edges, origin: string, w: seq<string>, i: nat, j: nat, p: seq<string>)
    requires UnitWalk(g, origin, w) && i < j < |w| && p == w[i..j + 1]
    ensures UnitWalk(g, origin, p)
  {
    hide UnitEdge;
    forall a | 0 <= a < |p| - 1 ensures UnitStep(g, origin, p, a) {
      assert UnitStep(g, origin, w, i + a);
      assert p[a] == w[i + a] && p[a + 1] == w[i + a + 1];
    }
  }

  lemma NoReturn(g: Edges, origin: string, w: seq<string>, i: nat, j: nat)
    requires Fading(g, origin) && UnitWalk(g, origin, w) && i < j < |w|
    ensures w[i] != w[j]
  {
    hide UnitWalk;
    var p := w[i..j + 1];
    SubWalk(g, origin, w, i, j, p);
    assert p[0] == w[i] && p[|p| - 1] == w[j];
  }

  lemma EndsAreTargets(g: Edges, origin: string, w: seq<string>, i: nat)
    requires ValidEdges(g) && UnitWalk(g, origin, w) && 0 < i < |w|
    ensures w[i] in Targets(g.keys)
  {
    hide UnitEdge;
    assert UnitStep(g, origin, w, i - 1);
    UnitEdgeListed(g, w[i - 1], w[i]);
  }

  /** Without a unit cycle a unit walk visits no service twice, so it has at most as many edges as the graph. */
  lemma UnitWalkIsShort(g: Edges, origin: string, w: seq<string>)
    requires ValidEdges(g) && Fading(g, origin) && UnitWalk(g, origin, w)
    ensures |w| - 1 <= |g.keys|
  {
    assert |w| > 0;
    hide UnitWalk, Fading, ValidEdges, Targets;
    var s := w[1..];
    forall i, j | 0 <= i < j < |s| ensures s[i] != s[j] {
      NoReturn(g, origin, w, i + 1, j + 1);
    }
    forall i | 0 <= i < |s| ensures s[i] in Targets(g.keys) {
      EndsAreTargets(g, origin, w, i + 1);
    }
    NoLongerThan(s, Targets(g.keys));
  }

  lemma UnitEdgeListed(g: Edges, u: string, v: string)
    requires ValidEdges(g) && UnitEdge(g, u, v)
    ensures (u, v) in g.keys
  {
  }

  /** Between two losses a walk can only be so long. */
  lemma {:induction false} WalkLength(g: Edges, origin: string, path: seq<string>)
    requires ValidEdges(g) && Fading(g, origin) && |path| > 0 && forall k :: 1 <= k < |path| ==> path[k] != origin
    ensures |path| - 1 <= Losses(g, path) * (|g.keys| + 1) + UnitTail(g, path) && UnitTail(g, path) <= |g.keys|
    decreases |path|
  {
    hide UnitEdge, Fading, UnitWalk;
    UnitTailIsWalk(g, origin, path);
    UnitWalkIsShort(g, origin, path[|path| - 1 - UnitTail(g, path)..]);
    if |path| > 1 {
      var p := path[..|path| - 1];
      WalkLength(g, origin, p);
      OneMore(Losses(g, p) + 1, |g.keys| + 1);
    } else {
      assert Losses(g, path) == 0;
    }
  }

  /** `n` bounds the length of every path that may still be extended. */
  ghost predicate DepthBound(g: Edges, origin: string, n: nat) {
    forall i: Item :: GoodItem(g, origin, i) ==> |i.path| <= n
  }

  lemma HasDepthBound(g: Edges, origin: string) returns (n: nat)
    requires ValidEdges(g) && Fading(g, origin)
    ensures DepthBound(g, origin, n)
  {
    var es := Values(g);
    var c := LargestBelowOne(es);
    forall k <- g.vals.Keys ensures g.vals[k].failureCorrelation < 1.0 ==> g.vals[k].failureCorrelation <= c {
      assert k in g.keys;
      var i :| 0 <= i < |g.keys| && g.keys[i] == k;
      assert es[i] in es;
    }
    n := DepthFor(g, origin, c);
  }

  lemma DepthFor(g: Edges, origin: string, c: real) returns (n: nat)
    requires ValidEdges(g) && Fading(g, origin) && Gap(g, c)
    ensures DepthBound(g, origin, n)
  {
    hide Product, Delay, Fading, Gap, Losses, UnitTail, ValidEdges;
    var take := CUTOFF * (1.0 - c);
    GapTakes(g, c);
    var q := 1.0 / take;
    var m := q.Floor + 1;
    assert q * take == 1.0;
    MulMonotone(q, m as real, take);
    n := 1 + m * (|g.keys| + 1) + |g.keys|;
    forall i: Item | GoodItem(g, origin, i) ensures |i.path| <= n {
      FewLosses(g, i.path, c, take, m);
      WalkLength(g, origin, i.path);
      Fewer(Losses(g, i.path), m, |g.keys| + 1);
    }
  }

  lemma GapTakes(g: Edges, c: real)
    requires Gap(g, c)
    ensures CUTOFF * (1.0 - c) > 0.0
  {
  }

  lemma Fewer(a: nat, b: nat, x: nat)
    requires a <= b
    ensures a * x <= b * x
  {
  }

  lemma FewLosses(g: Edges, path: seq<string>, c: real, take: real, m: nat)
    requires Gap(g, c) && StaysAbove(g, path) && take == CUTOFF * (1.0 - c) && take > 0.0
    requires m as real * take >= 1.0 && Product(g, path) > CUTOFF
    ensures Losses(g, path) <= m
  {
    hide *;
    ProductDecays(g, path, c, take);
    MoreLosses(Losses(g, path), m, take);
  }

  lemma MoreLosses(a: nat, m: nat, take: real)
    requires take > 0.0 && m as real * take >= 1.0 && 1.0 - a as real * take > CUTOFF
    ensures a <= m
  {
    if a > m {
      MulMonotone(m as real, a as real, take);
    }
  }

  /** A path weighs more than all its one-edge extensions together. */
  ghost function Weight(queue: seq<Item>, b: nat, n: nat): nat {
    if |queue| == 0 then 0
    else
      var i := queue[|queue| - 1];
      Weight(queue[..|queue| - 1], b, n) + (if |i.path| <= n then Pow(b, n + 1 - |i.path|) else 0)
  }

  lemma {:induction false} WeightPop(queue: seq<Item>, b: nat, n: nat)
    requires |queue| > 0
    ensures Weight(queue, b, n) == Weight([queue[0]], b, n) + Weight(queue[1..], b, n)
    decreases |queue|
  {
    if |queue| == 1 {
      assert queue == [queue[0]];
    } else {
      var front := queue[..|queue| - 1];
      WeightPop(front, b, n);
      assert front[1..] == queue[1..][..|queue| - 2];
    }
  }

  lemma WeightSnoc(queue: seq<Item>, i: Item, b: nat, n: nat)
    requires |i.path| <= n
    ensures Weight(queue + [i], b, n) == Weight(queue, b, n) + Pow(b, n + 1 - |i.path|)
  {
    assert (queue + [i])[..|queue|] == queue;
  }

  lemma OneMore(k: nat, x: nat)
    requires k > 0
    ensures k * x == (k - 1) * x + x
  {
  }

  lemma {:induction false} RelaxAllWeight(
    g: Edges, origin: string, rnd: real -> real, item: Item, es: seq<CausalEdge>, k: nat, s: State, b: nat, n: nat)
    requires k <= |es| && EdgesFrom(g, item.current, es) && GoodItem(g, origin, item) && DepthBound(g, origin, n)
    ensures Weight(RelaxAll(origin, rnd, item, es, k, s).queue, b, n)
         <= Weight(s.queue, b, n) + k * Pow(b, n - |item.path|)
  {
    hide Product, Delay, Explorable, Weight, Pow, Relax;
    if k > 0 {
      RelaxAllWeight(g, origin, rnd, item, es, k - 1, s, b, n);
      assert EdgeFrom(g, item.current, es[k - 1]);
      OneMore(k, Pow(b, n - |item.path|));
      RelaxWeight(g, origin, rnd, item, es[k - 1], RelaxAll(origin, rnd, item, es, k - 1, s), b, n);
    }
  }

  lemma RelaxWeight(g: Edges, origin: string, rnd: real -> real, item: Item, e: CausalEdge, s: State, b: nat, n: nat)
    requires EdgeFrom(g, item.current, e) && GoodItem(g, origin, item) && DepthBound(g, origin, n)
    ensures Weight(Relax(origin, rnd, item, e, s).queue, b, n) <= Weight(s.queue, b, n) + Pow(b, n - |item.path|)
  {
    hide Product, Delay, Explorable, EntryOf, Weight, Pow, GoodEntry, Along, Set;
    var next := Extend(item, e);
    if e.target != origin && next.prob > CUTOFF {
      ExtendGood(g, origin, rnd, item, e);
      assert |next.path| <= n;
      WeightSnoc(s.queue, next, b, n);
    }
  }

  lemma {:induction false} PowPositive(b: nat, n: nat)
    requires b > 0
    ensures Pow(b, n) > 0
  {
    if n > 0 {
      PowPositive(b, n - 1);
    }
  }

  /** Every round makes the queue lighter. */
  lemma StepLighter(g: Edges, origin: string, rnd: real -> real, s: State, n: nat)
    requires ValidEdges(g) && Witnessed(g, origin, rnd, s) && DepthBound(g, origin, n) && |s.queue| > 0
    ensures Weight(Step(g, origin, rnd, s).queue, |g.keys| + 1, n) < Weight(s.queue, |g.keys| + 1, n)
  {
    hide Product, Delay, Explorable, GoodItem, GoodEntry, RelaxAll, OutEdges, Weight, Pow;
    var b := |g.keys| + 1;
    var item := s.queue[0];
    assert GoodItem(g, origin, item) && |item.path| <= n;
    var out := OutEdges(Values(g), item.current);
    OutEdgesComplete(g, item.current);
    RelaxAllWeight(g, origin, rnd, item, out, |out|, State(s.queue[1..], s.visited), b, n);
    WeightPop(s.queue, b, n);
    WeightOne(item, b, n);
    PowPositive(b, n - |item.path|);
    Lighter(|out|, |g.keys|, Pow(b, n - |item.path|));
  }

  lemma WeightOne(item: Item, b: nat, n: nat)
    requires |item.path| <= n
    ensures Weight([item], b, n) == b * Pow(b, n - |item.path|)
  {
    assert [item][..0] == [];
  }

  lemma Lighter(out: nat, all: nat, child: nat)
    requires out <= all && child > 0
    ensures out * child < (all + 1) * child
  {
    assert (all + 1) * child == all * child + child;
    assert all * child - out * child == (all - out) * child;
  }

  lemma {:induction false} Drains(g: Edges, origin: string, rnd: real -> real, delta: real, done: nat, n: nat) returns (m: nat)
    requires ValidEdges(g) && IsRounding(rnd, delta) && DepthBound(g, origin, n)
    ensures After(g, origin, rnd, m).queue == []
    decreases Weight(After(g, origin, rnd, done).queue, |g.keys| + 1, n)
  {
    hide IsRounding, Step;
    AfterInvariant(g, origin, rnd, delta, done);
    m := done;
    if |After(g, origin, rnd, done).queue| > 0 {
      StepLighter(g, origin, rnd, After(g, origin, rnd, done), n);
      m := Drains(g, origin, rnd, delta, done + 1, n);
    }
  }

  /**
   The queue runs empty on every graph, cycles included, unless a cycle that avoids the origin consists
   of correlations of 1 only.
   */
  lemma SearchTerminates(g: Edges, origin: string, rnd: real -> real, delta: real)
    requires ValidEdges(g) && Fading(g, origin) && IsRounding(rnd, delta)
    ensures exists m: nat :: After(g, origin, rnd, m).queue == []
  {
    hide Fading;
    var n := HasDepthBound(g, origin);
    var m := Drains(g, origin, rnd, delta, 0, n);
  }

  // ---- What is stored when the queue is empty ----

  /** The search is over: every entry has its witness and every edge is settled. */
  ghost predicate Final(g: Edges, origin: string, rnd: real -> real, visited: Dict<string, Entry>) {
    Invariant(g, origin, rnd, State([], visited))
  }

  ghost predicate Probabilities(g: Edges) {
    forall k <- g.vals.Keys :: 0.0 <= g.vals[k].failureCorrelation <= 1.0
  }

  /** `Explorable`, with a margin of two rounding errors for every edge already taken. */
  ghost predicate ClearlyExplorable(g: Edges, origin: string, delta: real, w: seq<string>) {
    && IsWalk(g, w) && w[0] == origin
    && (forall k :: 1 <= k < |w| ==> w[k] != origin)
    && (forall k :: 1 <= k < |w| ==> Product(g, w[..k]) > CUTOFF + Slack(k - 1, delta))
  }

  /** Two rounding errors for each of `n` edges. */
  function Slack(n: nat, delta: real): real {
    2.0 * n as real * delta
  }

  lemma SettledEdge(g: Edges, origin: string, rnd: real -> real, visited: Dict<string, Entry>, u: string, p: real, v: string)
    requires Final(g, origin, rnd, visited) && Current(g, origin, visited.vals, u, p) && p > CUTOFF
    requires v != origin && (u, v) in g.vals
    ensures v in visited.vals && visited.vals[v].probability >= rnd(Along(p, g.vals[(u, v)]))
  {
    hide Product;
    assert Settled(g, origin, rnd, visited.vals, u, p) by {
      assert !Pending([], u, p);
    }
    assert EdgeSettled(g, rnd, visited.vals, u, p, v);
  }

  /** The exact probability of the stored path for the end of `w`. */
  ghost function Found(g: Edges, origin: string, visited: Dict<string, Entry>, u: string): real {
    if u == origin || u !in visited.vals then 1.0 else Product(g, visited.vals[u].path)
  }

  lemma {:induction false} NearlyFound(g: Edges, origin: string, rnd: real -> real, delta: real, visited: Dict<string, Entry>, w: seq<string>)
    requires ValidEdges(g) && Probabilities(g) && IsRounding(rnd, delta) && Final(g, origin, rnd, visited)
    requires ClearlyExplorable(g, origin, delta, w)
    ensures var t := w[|w| - 1];
            && (|w| > 1 ==> t in visited.vals && visited.vals[t].probability >= Product(g, w) - Slack(|w| - 1, delta) + delta)
            && (|w| > 1 ==> GoodEntry(g, origin, rnd, t, visited.vals[t]))
            && Found(g, origin, visited, t) >= Product(g, w) - Slack(|w| - 1, delta)
    decreases |w|
  {
    if |w| > 1 {
      hide Product, Slack, Along, Explorable, Delay, Covered, IsRounding;
      var n := |w| - 1;
      var w', u, v := w[..n], w[n - 1], w[n];
      ShorterWalk(g, origin, delta, w);
      NearlyFound(g, origin, rnd, delta, visited, w');
      var e := g.vals[(u, v)];
      var found := Found(g, origin, visited, u);
      SettledEdge(g, origin, rnd, visited, u, found, v);
      LossOfOneEdge(rnd, delta, found, Product(g, w'), e, n - 1);
      ProductSnoc(g, w', v);
      assert w == w' + [v];
      assert GoodEntry(g, origin, rnd, v, visited.vals[v]);
      RoundsNear(rnd, delta, Product(g, visited.vals[v].path));
    } else {
      WalkOfOne(g, w, delta);
    }
  }

  lemma RoundsNear(rnd: real -> real, delta: real, x: real)
    requires IsRounding(rnd, delta)
    ensures rnd(x) <= x + delta
  {
  }

  lemma WalkOfOne(g: Edges, w: seq<string>, delta: real)
    requires |w| == 1
    ensures Product(g, w) - Slack(0, delta) == 1.0
  {
  }

  lemma ShorterWalk(g: Edges, origin: string, delta: real, w: seq<string>)
    requires ClearlyExplorable(g, origin, delta, w) && |w| > 1
    ensures ClearlyExplorable(g, origin, delta, w[..|w| - 1])
    ensures Product(g, w[..|w| - 1]) > CUTOFF + Slack(|w| - 2, delta)
  {
    hide Product, Slack;
    var w' := w[..|w| - 1];
    forall k | 1 <= k < |w'| ensures Product(g, w'[..k]) > CUTOFF + Slack(k - 1, delta) {
      assert w'[..k] == w[..k];
    }
  }

  lemma LossArithmetic(found: real, p: real, c: real, loss: real)
    requires 0.0 <= c <= 1.0 && loss >= 0.0 && found >= p - loss
    ensures found * c >= p * c - loss
  {
    MulMonotone(p - loss, found, c);
    MulMonotone(c, 1.0, loss);
    var a, b, l := found * c, p * c, loss * c;
    assert a >= b - l by {
      MulDistributes(p - loss, loss, c);
      assert p - loss + loss == p;
    }
    assert l <= loss;
    assert a >= b - loss;
  }

  lemma LossOfOneEdge(rnd: real -> real, delta: real, found: real, p: real, e: CausalEdge, n: nat)
    requires IsRounding(rnd, delta) && 0.0 <= e.failureCorrelation <= 1.0
    requires found >= p - Slack(n, delta)
    ensures rnd(Along(found, e)) >= Along(p, e) - Slack(n + 1, delta) + delta
  {
    assert 0.0 - delta <= rnd(0.0) <= 0.0 + delta;
    var c, loss := e.failureCorrelation, Slack(n, delta);
    MulMonotone(0.0, 2.0 * n as real, delta);
    LossArithmetic(found, p, c, loss);
    assert rnd(Along(found, e)) >= Along(found, e) - delta;
    assert Slack(n + 1, delta) == loss + 2.0 * delta;
  }

  /**
   Every service that a clearly explorable walk reaches is reported, with a probability that falls
   short of the walk's by less than two rounding errors an edge.  (What is reported never exceeds
   the product of a real explorable walk by more than one rounding error: `Final` says so.)
   */
  lemma NearOptimal(g: Edges, origin: string, visited: Dict<string, Entry>, w: seq<string>)
    requires ValidEdges(g) && Probabilities(g) && Final(g, origin, Round4, visited)
    requires |w| > 1 && ClearlyExplorable(g, origin, 0.00005, w)
    ensures var t := w[|w| - 1];
            && t in visited.vals
            && visited.vals[t].probability >= Product(g, w) - 0.0001 * (|w| - 1) as real
            && Explorable(g, origin, visited.vals[t].path)
            && visited.vals[t].probability <= Product(g, visited.vals[t].path) + 0.00005
  {
    Round4IsRounding();
    NearlyFound(g, origin, Round4, 0.00005, visited, w);
    assert GoodEntry(g, origin, Round4, w[|w| - 1], visited.vals[w[|w| - 1]]);
  }

  function Exactly(x: real): real { x }

  /** Without rounding, what is stored for `t` is the maximum over all explorable walks to `t`. */
  lemma ExactMaximum(g: Edges, origin: string, visited: Dict<string, Entry>, w: seq<string>)
    requires ValidEdges(g) && Probabilities(g) && Final(g, origin, Exactly, visited)
    requires |w| > 1 && Explorable(g, origin, w)
    ensures var t := w[|w| - 1];
            && t in visited.vals
            && visited.vals[t].probability >= Product(g, w)
            && Explorable(g, origin, visited.vals[t].path)
            && visited.vals[t].path[|visited.vals[t].path| - 1] == t
            && visited.vals[t].probability == Product(g, visited.vals[t].path)
  {
    assert IsRounding(Exactly, 0.0);
    NearlyFound(g, origin, Exactly, 0.0, visited, w);
    assert GoodEntry(g, origin, Exactly, w[|w| - 1], visited.vals[w[|w| - 1]]);
  }

  // ---- With a correlation of 1 on a cycle the search may never stop ----

  function Edge(u: string, v: string, c: real): CausalEdge {
    CausalEdge(u, v, "calls", 0.5, c, 10, 1, "")
  }

  function LoopGraph(): Edges {
    Dict([("a", "b"), ("b", "c"), ("c", "b")],
         map[("a", "b") := Edge("a", "b", 0.33333), ("b", "c") := Edge("b", "c", 1.0), ("c", "b") := Edge("c", "b", 1.0)])
  }

  lemma LoopEdges()
    ensures LoopGraph().Valid()
    ensures OutEdges(Values(LoopGraph()), "a") == [Edge("a", "b", 0.33333)]
    ensures OutEdges(Values(LoopGraph()), "b") == [Edge("b", "c", 1.0)]
    ensures OutEdges(Values(LoopGraph()), "c") == [Edge("c", "b", 1.0)]
  {
    hide OutEdges, LoopGraph, Values, Dict.Valid;
    var e0, e1, e2 := Edge("a", "b", 0.33333), Edge("b", "c", 1.0), Edge("c", "b", 1.0);
    LoopValues();
    OutEdgesOf3(e0, e1, e2, "a");
    OutEdgesOf3(e0, e1, e2, "b");
    OutEdgesOf3(e0, e1, e2, "c");
  }

  lemma LoopValues()
    ensures LoopGraph().Valid()
    ensures Values(LoopGraph()) == [Edge("a", "b", 0.33333), Edge("b", "c", 1.0), Edge("c", "b", 1.0)]
  {
  }

  lemma OutEdgesOf3(e0: CausalEdge, e1: CausalEdge, e2: CausalEdge, u: string)
    ensures OutEdges([e0, e1, e2], u) ==
            (if e0.source == u then [e0] else []) + (if e1.source == u then [e1] else []) + (if e2.source == u then [e2] else [])
  {
    assert [e0, e1, e2][..2] == [e0, e1] && [e0, e1][..1] == [e0] && [e0][..0] == [];
    assert OutEdges([e0], u) == if e0.source == u then [e0] else [];
  }

  /** The graph has what `Fading` excludes. */
  lemma LoopDoesNotFade()
    ensures !Fading(LoopGraph(), "a")
  {
    var p := ["b", "c", "b"];
    assert UnitStep(LoopGraph(), "a", p, 0) && UnitStep(LoopGraph(), "a", p, 1);
    assert UnitWalk(LoopGraph(), "a", p) && p[0] == p[|p| - 1];
  }

  /** One path waits, unrounded, at a service whose stored probability was rounded down. */
  ghost predicate Looping(s: State) {
    && |s.queue| == 1 && s.queue[0].prob == 0.33333
    && (s.queue[0].current == "b" || s.queue[0].current == "c")
    && "b" in s.visited.vals && s.visited.vals["b"].probability == 0.3333
    && ("c" in s.visited.vals ==> s.visited.vals["c"].probability == 0.3333)
  }

  lemma LoopRounds()
    ensures Round4(0.33333) == 0.3333
  {
    assert 0.33333 * 10000.0 == 3333.3;
    assert (3333.3 as real).Floor == 3333;
  }

  lemma RelaxOne(origin: string, rnd: real -> real, item: Item, e: CausalEdge, s: State)
    ensures RelaxAll(origin, rnd, item, [e], 1, s) == Relax(origin, rnd, item, e, s)
  {
    assert RelaxAll(origin, rnd, item, [e], 0, s) == s;
  }

  /** The queue of the search from `a` never runs empty: a correlation of 1 breaks termination. */
  lemma {:induction false} SearchLoops(n: nat)
    ensures LoopGraph().Valid()
    ensures n == 0 || Looping(After(LoopGraph(), "a", Round4, n))
    ensures |After(LoopGraph(), "a", Round4, n).queue| > 0
  {
    LoopValues();
    hide LoopGraph, Round4, OutEdges, Looping, Step;
    if n > 0 {
      SearchLoops(n - 1);
      LoopStep(After(LoopGraph(), "a", Round4, n - 1), n - 1);
    }
    if n > 0 {
      LoopWaits(After(LoopGraph(), "a", Round4, n));
    }
  }

  lemma LoopWaits(s: State)
    requires Looping(s)
    ensures |s.queue| > 0
  {
  }

  lemma LoopStep(s: State, n: nat)
    requires if n == 0 then s == Start("a") else Looping(s)
    ensures LoopGraph().Valid() && Looping(Step(LoopGraph(), "a", Round4, s))
  {
    LoopEdges();
    LoopRounds();
    hide LoopGraph, Round4, OutEdges, RelaxAll;
    var item := s.queue[0];
    var s0 := State(s.queue[1..], s.visited);
    var e := if item.current == "a" then Edge("a", "b", 0.33333)
             else if item.current == "b" then Edge("b", "c", 1.0) else Edge("c", "b", 1.0);
    RelaxOne("a", Round4, item, e, s0);
    assert Along(item.prob, e) == 0.33333;
  }

  // ---- Correlations learned from co-failures ----

  /** One moving-average update, as stored: four decimals. */
  function NextCorrelation(c: real): real {
    Round4(0.3 * 1.0 + (1.0 - 0.3) * c)
  }

  function CoFailures(c: real, n: nat): real {
    if n == 0 then c else NextCorrelation(CoFailures(c, n - 1))
  }

  const CEILING: real := 0.9999

  /** An update keeps a correlation within the ceiling and never lowers it. */
  lemma UpdateBounds(c: real)
    requires c <= CEILING
    ensures c <= NextCorrelation(c) <= CEILING
    ensures Round4(NextCorrelation(c)) == NextCorrelation(c)
    ensures 0.0 <= c ==> NextCorrelation(c) >= 0.3
  {
    var x := 3000.0 + 0.7 * (c * 10000.0);
    assert (0.3 * 1.0 + (1.0 - 0.3) * c) * 10000.0 == x;
    UpdateInSteps(c * 10000.0);
    RoundIntExact(RoundInt(x));
    if 0.0 <= c {
      RoundIntMonotone(3000 as real, x);
      RoundIntExact(3000);
    }
  }

  /** The same in steps of one ten-thousandth: near the ceiling it rounds up, and below it gains more than rounding can lose. */
  lemma UpdateInSteps(v: real)
    requires v <= 9999.0
    ensures v <= RoundInt(3000.0 + 0.7 * v) as real <= 9999.0
  {
    var x := 3000.0 + 0.7 * v;
    RoundIntNear(x);
    assert (9999.3 as real).Floor == 9999;
    RoundIntMonotone(x, 9999.3);
    if v > 9998.0 {
      assert (9998.6 as real).Floor == 9998;
      RoundIntMonotone(9998.6, x);
    }
  }

  /** In steps of one ten-thousandth: how far from the ceiling at most after `n` updates. */
  function Distance(n: nat): nat {
    if n <= 1 then 6999 else (7 * Distance(n - 1) + 2) / 10
  }

  lemma StepUp(k: int, d: nat)
    requires 9999 - d <= k <= 9999
    ensures 9999 - (7 * d + 2) / 10 <= RoundInt(3000.0 + 0.7 * k as real) <= 9999
  {
    var x := 3000.0 + 0.7 * k as real;
    UpdateInSteps(k as real);
    RoundIntNear(x);
    var r := RoundInt(x);
    assert 10.0 * r as real >= 29995.0 + 7.0 * k as real;
    assert 10 * r >= 29995 + 7 * k;
  }

  lemma {:induction false} Climbs(c: real, n: nat) returns (k: int)
    requires 0.0 <= c <= CEILING && n > 0
    ensures CoFailures(c, n) == k as real / 10000.0 && 9999 - Distance(n) <= k <= 9999
  {
    if n == 1 {
      assert CoFailures(c, 0) == c;
      k := RoundInt((0.3 * 1.0 + (1.0 - 0.3) * c) * 10000.0);
      UpdateBounds(c);
    } else {
      var j := Climbs(c, n - 1);
      assert (0.3 * 1.0 + (1.0 - 0.3) * (j as real / 10000.0)) * 10000.0 == 3000.0 + 0.7 * j as real;
      k := RoundInt(3000.0 + 0.7 * j as real);
      StepUp(j, Distance(n - 1));
    }
  }

  lemma {:induction false} NoDistance(n: nat)
    requires n >= 25
    ensures Distance(n) == 0
  {
    if n == 25 {
      DistanceIs();
    } else {
      NoDistance(n - 1);
    }
  }

  lemma DistanceIs()
    ensures Distance(24) == 1 && Distance(25) == 0
  {
    assert Distance(1) == 6999;
    assert Distance(2) == (7 * 6999 + 2) / 10 == 4899;
    assert Distance(3) == (7 * 4899 + 2) / 10 == 3429;
    assert Distance(4) == (7 * 3429 + 2) / 10 == 2400;
    assert Distance(5) == (7 * 2400 + 2) / 10 == 1680;
    assert Distance(6) == (7 * 1680 + 2) / 10 == 1176;
    assert Distance(7) == (7 * 1176 + 2) / 10 == 823;
    assert Distance(8) == (7 * 823 + 2) / 10 == 576;
    assert Distance(9) == (7 * 576 + 2) / 10 == 403;
    assert Distance(10) == (7 * 403 + 2) / 10 == 282;
    assert Distance(11) == (7 * 282 + 2) / 10 == 197;
    assert Distance(12) == (7 * 197 + 2) / 10 == 138;
    assert Distance(13) == (7 * 138 + 2) / 10 == 96;
    assert Distance(14) == (7 * 96 + 2) / 10 == 67;
    assert Distance(15) == (7 * 67 + 2) / 10 == 47;
    assert Distance(16) == (7 * 47 + 2) / 10 == 33;
    assert Distance(17) == (7 * 33 + 2) / 10 == 23;
    assert Distance(18) == (7 * 23 + 2) / 10 == 16;
    assert Distance(19) == (7 * 16 + 2) / 10 == 11;
    assert Distance(20) == (7 * 11 + 2) / 10 == 7;
    assert Distance(21) == (7 * 7 + 2) / 10 == 5;
    assert Distance(22) == (7 * 5 + 2) / 10 == 3;
    assert Distance(23) == (7 * 3 + 2) / 10 == 2;
    assert Distance(24) == (7 * 2 + 2) / 10 == 1;
    assert Distance(25) == (7 * 1 + 2) / 10 == 0;
  }

  /** Twenty-five co-failures drive any correlation to exactly 0.9999, where it stays. */
  lemma CoFailuresConverge(c: real, n: nat)
    requires 0.0 <= c <= CEILING && n >= 25
    ensures CoFailures(c, n) == CEILING
  {
    var k := Climbs(c, n);
    NoDistance(n);
  }
}
