/** What a score says: which tokens weigh more, and which notes have anything to do with a query. */
module VectorMeaning {
  import opened Base
  import opened Dicts
  import opened PatternStats
  import opened VectorIndex
  import opened VectorSearch
  import Rounding
  import Sorting

  // ---- Rare tokens ----

  ghost predicate StrictLog(log: real -> real) {
    IsLog(log) && forall x, y :: 0.0 < x < y ==> log(x) < log(y)
  }

  lemma RatioFalls(p: real, a: real, b: real)
    requires p > 0.0 && 0.0 < a < b
    ensures 0.0 < p / b < p / a
  {
  }

  lemma LogRises(log: real -> real, x: real, y: real)
    requires StrictLog(log) && 0.0 < x < y
    ensures log(x) < log(y)
  {
  }

  lemma LogKeepsOrder(log: real -> real, x: real, y: real)
    requires IsLog(log) && 0.0 < x <= y
    ensures log(x) <= log(y)
  {
  }

  /** A token that fewer notes hold weighs at least as much; with a strictly increasing logarithm it weighs more exactly if fewer hold it. */
  lemma RarerWeighsMore(log: real -> real, ops: seq<Op>, t: string, u: string)
    requires IsLog(log)
    ensures var ix := Run(ops);
            var h, k := |Holders(ix.docs.vals, t)|, |Holders(ix.docs.vals, u)|;
            var wt, wu := Idf(log, |ix.docs.keys|, Frequency(ix.df, t)), Idf(log, |ix.docs.keys|, Frequency(ix.df, u));
            && (h <= k ==> wt >= wu)
            && (StrictLog(log) ==> (h < k <==> wt > wu))
            && (k == |ix.docs.keys| ==> wu == 1.0)
  {
    hide IsLog, StrictLog, Sound, Run, Holders, Frequency;
    var ix := Run(ops);
    RunSound(ops);
    FrequencyIs(ix, t);
    FrequencyIs(ix, u);
    var n, h, k := |ix.docs.keys|, Frequency(ix.df, t), Frequency(ix.df, u);
    CompareIdf(log, n, h, k);
    CompareIdf(log, n, k, h);
    if k == n {
      LogOfOne(log);
      OverItself(n as real + 1.0);
    }
  }

  lemma OverItself(p: real)
    requires p > 0.0
    ensures p / p == 1.0
  {
  }

  lemma LogOfOne(log: real -> real)
    requires IsLog(log)
    ensures log(1.0) == 0.0
  {
  }

  lemma CompareIdf(log: real -> real, n: nat, h: nat, k: nat)
    requires IsLog(log)
    ensures h <= k ==> Idf(log, n, h) >= Idf(log, n, k)
    ensures StrictLog(log) && h < k ==> Idf(log, n, h) > Idf(log, n, k)
  {
    hide IsLog, StrictLog;
    if h < k {
      var p, a, b := n as real + 1.0, h as real + 1.0, k as real + 1.0;
      RatioFalls(p, a, b);
      LogKeepsOrder(log, p / b, p / a);
      if StrictLog(log) { LogRises(log, p / b, p / a); }
    }
  }

  lemma {:induction false} CountIsMultiplicity(tokens: seq<string>, t: string)
    ensures Count(tokens, t) == multiset(tokens)[t]
  {
    if |tokens| > 0 {
      CountIsMultiplicity(tokens[..|tokens| - 1], t);
      assert tokens == tokens[..|tokens| - 1] + [tokens[|tokens| - 1]];
    }
  }

  /** The weight of a token in a text: its share of the text times its inverse document frequency. */
  lemma WeightsMeaning(log: real -> real, ops: seq<Op>, tokens: seq<string>, t: string)
    requires t in tokens && |Run(ops).docs.keys| > 0
    ensures var ix, weights := Run(ops), Weights(log, Run(ops), BuildTf(tokens)).vals;
            var n, h := |ix.docs.keys| as real, |Holders(ix.docs.vals, t)| as real;
            && (t in weights)
            && weights[t] == (multiset(tokens)[t] as real / |tokens| as real) * (log((n + 1.0) / (h + 1.0)) + 1.0)
  {
    hide Sound, Run, Holders, Frequency, BuildTf;
    RunSound(ops);
    FrequencyIs(Run(ops), t);
    CountIsMultiplicity(tokens, t);
    TfMeaning(tokens, t);
  }

  // ---- Shared tokens ----

  lemma {:induction false} SumWithout(a: Vector, b: Vector, ts: seq<string>, i: nat)
    requires i < |ts|
    ensures Dot(a, b, ts) == Dot(a, b, Without(ts, i)) + Times(At(a, ts[i]), At(b, ts[i]))
    decreases |ts|
  {
    hide Times, At;
    var n := |ts| - 1;
    if i == n {
      assert Without(ts, i) == ts[..n];
    } else {
      SumWithout(a, b, ts[..n], i);
      var less := Without(ts, i);
      assert less[..n - 1] == Without(ts[..n], i) && less[n - 1] == ts[n];
    }
  }

  lemma {:induction false} NothingShared(a: Vector, b: Vector, ts: seq<string>)
    requires forall t <- ts :: Times(At(a, t), At(b, t)) == 0.0
    ensures Dot(a, b, ts) == 0.0
  {
    hide Times, At;
    if |ts| > 0 {
      NothingShared(a, b, ts[..|ts| - 1]);
    }
  }

  /** Sums over different tokens agree when the same tokens contribute. */
  lemma {:induction false} SameProducts(a: Vector, b: Vector, ts: seq<string>, us: seq<string>)
    requires Different(ts) && Different(us)
    requires forall t :: Times(At(a, t), At(b, t)) != 0.0 ==> (t in ts <==> t in us)
    ensures Dot(a, b, ts) == Dot(a, b, us)
    decreases |ts|
  {
    hide Times, At;
    if |ts| == 0 {
      NothingShared(a, b, us);
    } else {
      var front, t := ts[..|ts| - 1], ts[|ts| - 1];
      assert ts == front + [t];
      if Times(At(a, t), At(b, t)) != 0.0 {
        var i :| 0 <= i < |us| && us[i] == t;
        SumWithout(a, b, us, i);
        StillThere(us, i);
        SameProducts(a, b, front, Without(us, i));
      } else {
        SameProducts(a, b, front, us);
      }
    }
  }

  lemma StillThere(us: seq<string>, i: nat)
    requires Different(us) && i < |us|
    ensures Different(Without(us, i)) && forall t :: t in Without(us, i) <==> t in us && t != us[i]
  {
    var rest := Without(us, i);
    forall t | t in us && t != us[i] ensures t in rest {
      var k :| 0 <= k < |us| && us[k] == t;
      assert rest[if k < i then k else k - 1] == t;
    }
  }

  lemma {:induction false} DotSwaps(a: Vector, b: Vector, ts: seq<string>)
    ensures Dot(a, b, ts) == Dot(b, a, ts)
  {
    hide Times, At;
    if |ts| > 0 {
      DotSwaps(a, b, ts[..|ts| - 1]);
      TimesSwaps(At(a, ts[|ts| - 1]), At(b, ts[|ts| - 1]));
    }
  }

  lemma TimesSwaps(p: real, q: real)
    ensures Times(p, q) == Times(q, p)
  {
  }

  lemma ZeroProduct(q: real)
    ensures Times(0.0, q) == 0.0 && Times(q, 0.0) == 0.0
  {
  }

  lemma ContributesInBoth(a: Vector, b: Vector, t: string)
    requires a.Valid() && b.Valid() && Times(At(a, t), At(b, t)) != 0.0
    ensures t in a.keys && t in b.keys
  {
    hide Times;
    ZeroProduct(At(a, t));
    ZeroProduct(At(b, t));
  }

  lemma DotEitherWay(a: Vector, b: Vector)
    requires a.Valid() && b.Valid()
    ensures Dot(a, b, b.keys) == Dot(b, a, a.keys)
  {
    hide Times, At, Dot, Dict.Valid;
    forall t | Times(At(a, t), At(b, t)) != 0.0 ensures t in a.keys && t in b.keys {
      ContributesInBoth(a, b, t);
    }
    KeysDiffer(a);
    KeysDiffer(b);
    SameProducts(a, b, b.keys, a.keys);
    DotSwaps(a, b, a.keys);
  }

  lemma KeysDiffer(a: Vector)
    requires a.Valid()
    ensures Different(a.keys)
  {
  }

  lemma MulSwaps(p: real, q: real)
    ensures p * q == q * p
  {
  }

  /** The score does not depend on which of the two vectors is the query. */
  lemma CosineSymmetric(sqrt: real -> real, a: Vector, b: Vector)
    requires a.Valid() && b.Valid()
    ensures CosineSimilarity(sqrt, a, b) == CosineSimilarity(sqrt, b, a)
  {
    hide Dot, Dict.Valid;
    DotEitherWay(a, b);
    var p, q := sqrt(Dot(a, a, a.keys)), sqrt(Dot(b, b, b.keys));
    MulSwaps(p, q);
    if p != 0.0 && q != 0.0 {
      SameQuotient(Dot(a, b, b.keys), p, q);
    }
  }

  lemma SameQuotient(x: real, p: real, q: real)
    requires p != 0.0 && q != 0.0
    ensures p * q != 0.0 && q * p != 0.0 && x / (p * q) == x / (q * p)
  {
    MulSwaps(p, q);
  }

  ghost predicate Positive(v: Vector) {
    v.Valid() && forall t <- v.vals :: v.vals[t] > 0.0
  }

  /** The square root of a positive vector's square sum. */
  lemma MagnitudePositive(sqrt: real -> real, a: Vector, t: string)
    requires IsSqrt(sqrt) && Positive(a) && t in a.vals
    ensures |a.keys| > 0 && sqrt(Dot(a, a, a.keys)) > 0.0
  {
    assert t in a.keys;
    NotZero(a, t);
    SquaresSign(a, a.keys);
    SqrtIs(sqrt, Dot(a, a, a.keys));
    hide IsSqrt, Dot;
    ZeroProduct(0.0);
  }

  lemma SharedPositive(a: Vector, b: Vector, t: string)
    requires Positive(a) && Positive(b) && t in a.vals && t in b.vals
    ensures Dot(a, b, b.keys) > 0.0
  {
    hide Times;
    assert t in b.keys;
    var i :| 0 <= i < |b.keys| && b.keys[i] == t;
    SumWithout(a, b, b.keys, i);
    DotSign(a, b, Without(b.keys, i));
    TimesSign(At(a, t), At(b, t));
  }

  lemma QuotientPositive(x: real, p: real, q: real)
    requires x > 0.0 && p > 0.0 && q > 0.0
    ensures p * q > 0.0 && x / (p * q) > 0.0
  {
    TimesSign(p, q);
  }

  /** Vectors with positive entries score above 0 exactly if they share a token. */
  lemma CosinePositive(sqrt: real -> real, a: Vector, b: Vector)
    requires IsSqrt(sqrt) && Positive(a) && Positive(b)
    ensures CosineSimilarity(sqrt, a, b) > 0.0 <==> exists t :: t in a.vals && t in b.vals
  {
    hide Dot, IsSqrt;
    if t :| t in a.vals && t in b.vals {
      MagnitudePositive(sqrt, a, t);
      MagnitudePositive(sqrt, b, t);
      SharedPositive(a, b, t);
      QuotientPositive(Dot(a, b, b.keys), sqrt(Dot(a, a, a.keys)), sqrt(Dot(b, b, b.keys)));
    } else {
      NoCommonToken(a, b);
      ZeroScore(sqrt, a, b);
    }
  }

  lemma NoCommonToken(a: Vector, b: Vector)
    requires a.Valid() && b.Valid() && forall t :: !(t in a.vals && t in b.vals)
    ensures Dot(a, b, b.keys) == 0.0
  {
    hide Times;
    forall t | t in b.keys ensures Times(At(a, t), At(b, t)) == 0.0 {
      ZeroProduct(At(b, t));
    }
    NothingShared(a, b, b.keys);
  }

  lemma ZeroScore(sqrt: real -> real, a: Vector, b: Vector)
    requires Dot(a, b, b.keys) == 0.0
    ensures CosineSimilarity(sqrt, a, b) == 0.0
  {
    hide Dot;
  }

  /** A note scores above 0 exactly if its text shares a token with the query. */
  lemma ScoreMeaning(log: real -> real, sqrt: real -> real, ops: seq<Op>, query: seq<string>, path: string)
    requires IsLog(log) && IsSqrt(sqrt) && Latest(ops, path) != None
    ensures path in Run(ops).docs.vals
    ensures Score(log, sqrt, Run(ops), query, path) > 0.0 <==> exists t :: t in query && t in Latest(ops, path).value
  {
    hide IsLog, IsSqrt, Sound, Run, Weights, BuildTf;
    var ix, tokens := Run(ops), Latest(ops, path).value;
    RunSound(ops);
    RunHolds(ops, path);
    PositiveWeights(log, ops, query);
    PositiveWeights(log, ops, tokens);
    CosinePositive(sqrt, Weights(log, ix, BuildTf(query)), Weights(log, ix, BuildTf(tokens)));
  }

  lemma PositiveWeights(log: real -> real, ops: seq<Op>, tokens: seq<string>)
    requires IsLog(log)
    ensures Positive(Weights(log, Run(ops), BuildTf(tokens)))
    ensures forall t :: t in Weights(log, Run(ops), BuildTf(tokens)).vals <==> t in tokens
  {
    hide IsLog, Sound, Run, Weights, BuildTf;
    RunSound(ops);
    TfNonNegative(tokens);
    WeightsNonNegative(log, Run(ops), BuildTf(tokens));
    WeightsKeys(log, Run(ops), BuildTf(tokens));
    forall t ensures t in BuildTf(tokens).vals <==> t in tokens {
      TfMeaning(tokens, t);
    }
  }

  // ---- How many results ----

  /** The notes that score high enough. */
  ghost function Scoring(log: real -> real, sqrt: real -> real, ix: Index, query: seq<string>, minScore: real): set<string> {
    set p | p in ix.docs.vals && Score(log, sqrt, ix, query, p) >= minScore
  }

  lemma {:induction false} AsManyPaths(hits: seq<Hit>)
    requires forall i, j :: 0 <= i < j < |hits| ==> hits[i].path != hits[j].path
    ensures |hits| == |set h | h in hits :: h.path|
  {
    if |hits| > 0 {
      var front, h := hits[..|hits| - 1], hits[|hits| - 1];
      AsManyPaths(front);
      var before := set g | g in front :: g.path;
      assert (set g | g in hits :: g.path) == before + {h.path} by { assert hits == front + [h]; }
      assert h.path !in before;
    }
  }

  /** All notes that score high enough are listed, or as many as asked for; a negative number leaves out so many at the end. */
  lemma SearchCount(log: real -> real, sqrt: real -> real, ops: seq<Op>, query: seq<string>, topK: int, minScore: real)
    requires query != []
    ensures var n := |Scoring(log, sqrt, Run(ops), query, minScore)|;
            |SearchTokens(log, sqrt, Run(ops), query, topK, minScore)| ==
              if topK >= n then n else if topK >= 0 then topK else if n + topK >= 0 then n + topK else 0
  {
    hide Run, Score, Sorting.SortBy, HitsAmong, Rounding.Round4;
    var ix := Run(ops);
    var sorted := SortedHits(log, sqrt, ops, query, minScore);
    PathsIndexed(ops);
    forall i, j | 0 <= i < j < |sorted| ensures sorted[i].path != sorted[j].path {
      assert sorted[i] in sorted && sorted[j] in sorted;
      SameHit(log, sqrt, ix, query, minScore, sorted[i], sorted[j]);
    }
    AsManyPaths(sorted);
    forall p ensures p in Scoring(log, sqrt, ix, query, minScore) <==> p in (set h | h in sorted :: h.path) {
      if p in Scoring(log, sqrt, ix, query, minScore) {
        HitOf(log, sqrt, ix, query, minScore, p);
      }
    }
    assert Scoring(log, sqrt, ix, query, minScore) == set h | h in sorted :: h.path;
  }

  lemma HitOf(log: real -> real, sqrt: real -> real, ix: Index, query: seq<string>, minScore: real, p: string)
    requires p in Scoring(log, sqrt, ix, query, minScore)
    ensures IsHit(log, sqrt, ix, query, minScore, Hit(p, Rounding.Round4(Score(log, sqrt, ix, query, p))))
  {
    hide Score, Rounding.Round4;
  }
}
