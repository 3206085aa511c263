/** Scores of notes against a query, from term frequencies weighted by how rare each token is. */
module VectorSearch {
  import opened Base
  import opened Dicts
  import opened Rounding
  import opened Sorting
  import opened PatternStats
  import opened VectorIndex

  // ---- Weights ----

  /** All that is used of the logarithm. */
  ghost predicate IsLog(log: real -> real) {
    log(1.0) == 0.0 && forall x, y :: 0.0 < x <= y ==> log(x) <= log(y)
  }

  /** The smoothed inverse document frequency. */
  function Idf(log: real -> real, n: nat, df: nat): real {
    log((n as real + 1.0) / (df as real + 1.0)) + 1.0
  }

  function Frequency(df: map<string, int>, t: string): (r: nat) {
    if t in df && df[t] >= 0 then df[t] else 0
  }

  function ApplyIdf(log: real -> real, df: map<string, int>, tf: Vector, n: nat): Vector {
    if n == 0 then tf
    else Dict(tf.keys, map t | t in tf.vals :: tf.vals[t] * Idf(log, n, Frequency(df, t)))
  }

  /** A token's inverse document frequency is at least 1. */
  lemma IdfAtLeastOne(log: real -> real, ix: Index, t: string)
    requires IsLog(log) && Sound(ix) && |ix.docs.keys| > 0
    ensures Frequency(ix.df, t) == |Holders(ix.docs.vals, t)| <= |ix.docs.keys|
    ensures Idf(log, |ix.docs.keys|, Frequency(ix.df, t)) >= 1.0
  {
    hide IsLog, Sound, Frequency, Holders;
    FrequencyIs(ix, t);
    var df, n := Frequency(ix.df, t), |ix.docs.keys|;
    RatioAtLeastOne(n as real + 1.0, df as real + 1.0);
    LogNotNegative(log, (n as real + 1.0) / (df as real + 1.0));
  }

  lemma LogNotNegative(log: real -> real, x: real)
    requires IsLog(log) && x >= 1.0
    ensures log(x) >= 0.0
  {
  }

  lemma FrequencyIs(ix: Index, t: string)
    requires Sound(ix)
    ensures Frequency(ix.df, t) == |Holders(ix.docs.vals, t)| <= |ix.docs.keys|
  {
    hide Dict.Valid;
    var holders := Holders(ix.docs.vals, t);
    assert Get(ix.df, t) == |holders|;
    KeyCount(ix.docs, holders);
  }

  lemma RatioAtLeastOne(p: real, q: real)
    requires 0.0 < q <= p
    ensures p / q >= 1.0
  {
  }

  lemma KeyCount<V>(d: Dict<string, V>, some: set<string>)
    requires d.Valid() && some <= d.vals.Keys
    ensures |some| <= |d.keys|
  {
    SetOfKeys(d.keys);
    var all := set k | k in d.keys;
    assert some <= all;
    Subset(some, all);
  }

  lemma {:induction false} SetOfKeys(keys: seq<string>)
    ensures |set k | k in keys| <= |keys|
  {
    if |keys| > 0 {
      var front := keys[..|keys| - 1];
      SetOfKeys(front);
      assert (set k | k in keys) == (set k | k in front) + {keys[|keys| - 1]};
    }
  }

  lemma {:induction false} Subset(a: set<string>, b: set<string>)
    requires a <= b
    ensures |a| <= |b|
  {
    if x :| x in a {
      Subset(a - {x}, b - {x});
    }
  }

  // ---- Cosine ----

  function At(v: Vector, t: string): real {
    if t in v.vals then v.vals[t] else 0.0
  }

  /** The sum of the products of the entries for the given tokens. */
  function Dot(a: Vector, b: Vector, ts: seq<string>): real {
    if |ts| == 0 then 0.0
    else Dot(a, b, ts[..|ts| - 1]) + Times(At(a, ts[|ts| - 1]), At(b, ts[|ts| - 1]))
  }

  function CosineSimilarity(sqrt: real -> real, a: Vector, b: Vector): real {
    if |a.keys| == 0 || |b.keys| == 0 then 0.0
    else
      var magA, magB := sqrt(Dot(a, a, a.keys)), sqrt(Dot(b, b, b.keys));
      if magA == 0.0 || magB == 0.0 then 0.0
      else
        assert magA * magB != 0.0;
        Dot(a, b, b.keys) / (magA * magB)
  }

  ghost predicate NonNegative(v: Vector) {
    v.Valid() && forall t <- v.vals :: v.vals[t] >= 0.0
  }

  lemma {:induction false} DotIsCross(a: Vector, b: Vector, ts: seq<string>)
    ensures Dot(a, b, ts) == Cross(Entries(a, ts), Entries(b, ts), 0.0, 0.0)
  {
    hide Times;
    if |ts| > 0 {
      var n := |ts| - 1;
      DotIsCross(a, b, ts[..n]);
      assert Entries(a, ts)[..n] == Entries(a, ts[..n]) && Entries(b, ts)[..n] == Entries(b, ts[..n]);
      assert At(a, ts[n]) - 0.0 == At(a, ts[n]) && At(b, ts[n]) - 0.0 == At(b, ts[n]);
    }
  }

  function Entries(v: Vector, ts: seq<string>): (r: seq<real>)
    ensures |r| == |ts| && forall i :: 0 <= i < |ts| ==> r[i] == At(v, ts[i])
  {
    Map(t => At(v, t), ts)
  }

  lemma {:induction false} DotSign(a: Vector, b: Vector, ts: seq<string>)
    requires NonNegative(a) && NonNegative(b)
    ensures Dot(a, b, ts) >= 0.0
  {
    hide Times;
    if |ts| > 0 {
      DotSign(a, b, ts[..|ts| - 1]);
      TimesSign(At(a, ts[|ts| - 1]), At(b, ts[|ts| - 1]));
    }
  }

  /** Taking out one token takes out its product. */
  lemma {:induction false} DotWithout(a: Vector, ts: seq<string>, i: nat)
    requires i < |ts|
    ensures Dot(a, a, ts) == Dot(a, a, Without(ts, i)) + Times(At(a, ts[i]), At(a, ts[i]))
    decreases |ts|
  {
    hide Times;
    var n := |ts| - 1;
    if i == n {
      assert Without(ts, i) == ts[..n];
    } else {
      DotWithout(a, ts[..n], i);
      var less := Without(ts, i);
      assert less[..n - 1] == Without(ts[..n], i) && less[n - 1] == ts[n];
    }
  }

  /** The tokens of one vector, or any other different tokens: no more than the vector's own square sum. */
  lemma {:induction false} PartOfSquares(a: Vector, ts: seq<string>, all: seq<string>)
    requires Different(ts) && forall t <- ts :: At(a, t) != 0.0 ==> t in all
    ensures Dot(a, a, ts) <= Dot(a, a, all)
    decreases |ts|
  {
    hide Times, At;
    if |ts| > 0 {
      var front, t := ts[..|ts| - 1], ts[|ts| - 1];
      SquareSign(At(a, t));
      if At(a, t) != 0.0 {
        var i :| 0 <= i < |all| && all[i] == t;
        var rest := Without(all, i);
        forall x | x in front && At(a, x) != 0.0 ensures x in rest {
          assert x in ts;
          var k :| 0 <= k < |all| && all[k] == x;
          assert x != t;
          assert rest[if k < i then k else k - 1] == x;
        }
        PartOfSquares(a, front, rest);
        DotWithout(a, all, i);
      } else {
        PartOfSquares(a, front, all);
      }
    } else {
      SquaresSign(a, all);
    }
  }

  lemma {:induction false} SquaresSign(a: Vector, ts: seq<string>)
    ensures Dot(a, a, ts) >= 0.0
  {
    hide Times;
    if |ts| > 0 {
      SquaresSign(a, ts[..|ts| - 1]);
      SquareSign(At(a, ts[|ts| - 1]));
    }
  }

  lemma DotsBound(a: Vector, b: Vector)
    requires NonNegative(a) && NonNegative(b)
    ensures var num := Dot(a, b, b.keys); 0.0 <= num && num * num <= Dot(a, a, a.keys) * Dot(b, b, b.keys)
  {
    hide Dot, Cross, At, Different, Dict.Valid;
    DotSign(a, b, b.keys);
    var us, vs := Entries(a, b.keys), Entries(b, b.keys);
    DotIsCross(a, b, b.keys);
    DotIsCross(a, a, b.keys);
    DotIsCross(b, b, b.keys);
    ProductsBound(us, vs);
    KeysSuffice(a, b);
    SquaresSign(b, b.keys);
    MulMonotone(Dot(a, a, b.keys), Dot(a, a, a.keys), Dot(b, b, b.keys));
  }

  lemma KeysSuffice(a: Vector, b: Vector)
    requires a.Valid() && b.Valid()
    ensures Dot(a, a, b.keys) <= Dot(a, a, a.keys)
  {
    PartOfSquares(a, b.keys, a.keys);
  }

  /** Scores of vectors without negative entries lie between 0 and 1. */
  lemma CosineInRange(sqrt: real -> real, a: Vector, b: Vector)
    requires IsSqrt(sqrt) && NonNegative(a) && NonNegative(b)
    ensures 0.0 <= CosineSimilarity(sqrt, a, b) <= 1.0
  {
    var num, aa, bb := Dot(a, b, b.keys), Dot(a, a, a.keys), Dot(b, b, b.keys);
    hide Dot, IsSqrt, NonNegative;
    DotsBound(a, b);
    SquaresSign(a, a.keys);
    SquaresSign(b, b.keys);
    SqrtIs(sqrt, aa);
    SqrtIs(sqrt, bb);
    if sqrt(aa) != 0.0 && sqrt(bb) != 0.0 {
      RatioInRange(num, aa, bb, sqrt(aa), sqrt(bb));
    }
  }

  lemma RatioInRange(num: real, aa: real, bb: real, p: real, q: real)
    requires p > 0.0 && q > 0.0 && Times(p, p) == aa && Times(q, q) == bb && 0.0 <= num && num * num <= aa * bb
    ensures p * q > 0.0 && 0.0 <= num / (p * q) <= 1.0
  {
    RootPositive(p, aa);
    RootPositive(q, bb);
    PositiveProduct(p, q);
    PositiveProduct(aa, bb);
    RootOfProduct(p, q, aa, bb);
    Coefficient(num, p * q, aa * bb);
    NotNegative(num, p * q);
  }

  lemma RootPositive(p: real, v: real)
    requires p > 0.0 && Times(p, p) == v
    ensures v > 0.0 && p * p == v
  {
    TimesSign(p, p);
  }

  lemma NotNegative(num: real, den: real)
    requires num >= 0.0 && den > 0.0
    ensures num / den >= 0.0
  {
  }

  /** A vector that is not zero has the score 1 against itself. */
  lemma CosineSelf(sqrt: real -> real, a: Vector)
    requires IsSqrt(sqrt) && Dot(a, a, a.keys) != 0.0
    ensures CosineSimilarity(sqrt, a, a) == 1.0
  {
    var aa := Dot(a, a, a.keys);
    SquaresSign(a, a.keys);
    SqrtIs(sqrt, aa);
    hide IsSqrt;
    assert |a.keys| > 0;
    SelfRatio(aa, sqrt(aa));
  }

  lemma SelfRatio(aa: real, p: real)
    requires Times(p, p) == aa && aa != 0.0 && p >= 0.0
    ensures p != 0.0 && p * p != 0.0 && aa / (p * p) == 1.0
  {
    assert p == 0.0 ==> Times(p, p) == 0.0;
  }

  // ---- Search ----

  datatype Hit = Hit(path: string, score: real)

  function Weights(log: real -> real, ix: Index, tf: Vector): Vector {
    ApplyIdf(log, ix.df, tf, |ix.docs.keys|)
  }

  function Score(log: real -> real, sqrt: real -> real, ix: Index, query: seq<string>, path: string): real
    requires path in ix.docs.vals
  {
    CosineSimilarity(sqrt, Weights(log, ix, BuildTf(query)), Weights(log, ix, ix.docs.vals[path]))
  }

  /** The notes among `paths` whose score is high enough, with the score rounded. */
  function HitsAmong(log: real -> real, sqrt: real -> real, ix: Index, query: seq<string>, paths: seq<string>, minScore: real): seq<Hit>
    requires forall p <- paths :: p in ix.docs.vals
  {
    if |paths| == 0 then []
    else
      var before, p := HitsAmong(log, sqrt, ix, query, paths[..|paths| - 1], minScore), paths[|paths| - 1];
      var score := Score(log, sqrt, ix, query, p);
      if score >= minScore then before + [Hit(p, Round4(score))] else before
  }

  function ByScore(h: Hit): real {
    -h.score
  }

  /** A slice `s[:k]`; a negative bound counts from the end. */
  function Slice<T>(s: seq<T>, k: int): seq<T> {
    if k >= |s| then s else if k >= 0 then s[..k] else if |s| + k >= 0 then s[..|s| + k] else []
  }

  function SearchTokens(log: real -> real, sqrt: real -> real, ix: Index, query: seq<string>, topK: int, minScore: real): seq<Hit>
    requires ix.docs.Valid()
  {
    if |query| == 0 || |ix.docs.keys| == 0 then []
    else Slice(SortBy(ByScore, HitsAmong(log, sqrt, ix, query, ix.docs.keys, minScore)), topK)
  }

  method Search(log: real -> real, sqrt: real -> real, ix: Index, query: seq<string>, topK: int, minScore: real) returns (hits: seq<Hit>)
    requires ix.docs.Valid()
    ensures hits == SearchTokens(log, sqrt, ix, query, topK, minScore)
  {
    hide Weights, CosineSimilarity, SortBy, Slice, BuildTf, Round4;
    if |query| == 0 || |ix.docs.keys| == 0 { return []; }
    var weights := Weights(log, ix, BuildTf(query));
    hits := [];
    var paths := ix.docs.keys;
    for i := 0 to |paths|
      invariant hits == HitsAmong(log, sqrt, ix, query, paths[..i], minScore)
    {
      assert paths[..i + 1][..i] == paths[..i];
      var score := CosineSimilarity(sqrt, weights, Weights(log, ix, ix.docs.vals[paths[i]]));
      if score >= minScore { hits := hits + [Hit(paths[i], Round4(score))]; }
    }
    assert paths[..|paths|] == paths;
    hits := Slice(SortBy(ByScore, hits), topK);
  }

  lemma WeightsNonNegative(log: real -> real, ix: Index, tf: Vector)
    requires IsLog(log) && Sound(ix) && NonNegative(tf)
    ensures NonNegative(Weights(log, ix, tf))
    ensures forall t <- tf.vals :: tf.vals[t] > 0.0 ==> Weights(log, ix, tf).vals[t] > 0.0
  {
    hide Sound, IsLog, Idf, Frequency;
    if |ix.docs.keys| > 0 {
      forall t | t in tf.vals
        ensures var w := tf.vals[t] * Idf(log, |ix.docs.keys|, Frequency(ix.df, t)); w >= 0.0 && (tf.vals[t] > 0.0 ==> w > 0.0)
      {
        IdfAtLeastOne(log, ix, t);
        TimesSign(tf.vals[t], Idf(log, |ix.docs.keys|, Frequency(ix.df, t)));
      }
    }
  }

  lemma TfNonNegative(tokens: seq<string>)
    ensures NonNegative(BuildTf(tokens)) && forall t <- BuildTf(tokens).vals :: BuildTf(tokens).vals[t] > 0.0
  {
    hide BuildTf;
    forall t | t in BuildTf(tokens).vals ensures BuildTf(tokens).vals[t] > 0.0 {
      TfMeaning(tokens, t);
    }
  }

  ghost predicate IsHit(log: real -> real, sqrt: real -> real, ix: Index, query: seq<string>, minScore: real, h: Hit) {
    && h.path in ix.docs.vals
    && Score(log, sqrt, ix, query, h.path) >= minScore
    && h.score == Round4(Score(log, sqrt, ix, query, h.path))
  }

  lemma {:induction false} HitsAre(log: real -> real, sqrt: real -> real, ix: Index, query: seq<string>, paths: seq<string>, minScore: real, h: Hit)
    requires forall p <- paths :: p in ix.docs.vals
    ensures h in HitsAmong(log, sqrt, ix, query, paths, minScore) <==> h.path in paths && IsHit(log, sqrt, ix, query, minScore, h)
  {
    hide Score, Round4;
    if |paths| > 0 {
      HitsAre(log, sqrt, ix, query, paths[..|paths| - 1], minScore, h);
      assert paths == paths[..|paths| - 1] + [paths[|paths| - 1]];
    }
  }

  lemma ScoreInRange(log: real -> real, sqrt: real -> real, ops: seq<Op>, query: seq<string>, path: string)
    requires IsLog(log) && IsSqrt(sqrt) && path in Run(ops).docs.vals
    ensures 0.0 <= Score(log, sqrt, Run(ops), query, path) <= 1.0
  {
    hide IsLog, IsSqrt, Sound, NonNegative, Run, Weights, BuildTf;
    var ix := Run(ops);
    RunSound(ops);
    RunHolds(ops, path);
    TfNonNegative(query);
    TfNonNegative(Latest(ops, path).value);
    WeightsNonNegative(log, ix, BuildTf(query));
    WeightsNonNegative(log, ix, ix.docs.vals[path]);
    CosineInRange(sqrt, Weights(log, ix, BuildTf(query)), Weights(log, ix, ix.docs.vals[path]));
  }

  /** A note scores 1 against its own text. */
  lemma OwnTextScoresOne(log: real -> real, sqrt: real -> real, ops: seq<Op>, path: string)
    requires IsLog(log) && IsSqrt(sqrt) && Latest(ops, path) != None && Latest(ops, path).value != []
    ensures path in Run(ops).docs.vals && Score(log, sqrt, Run(ops), Latest(ops, path).value, path) == 1.0
  {
    hide IsLog, IsSqrt, Sound, Run, Weights, BuildTf, Dot;
    var ix, tokens := Run(ops), Latest(ops, path).value;
    RunSound(ops);
    RunHolds(ops, path);
    var tf := BuildTf(tokens);
    TfNonNegative(tokens);
    TfMeaning(tokens, tokens[0]);
    WeightsNonNegative(log, ix, tf);
    WeightsKeys(log, ix, tf);
    var w := Weights(log, ix, tf);
    NotZero(w, tokens[0]);
    CosineSelf(sqrt, w);
  }

  lemma WeightsKeys(log: real -> real, ix: Index, tf: Vector)
    ensures Weights(log, ix, tf).vals.Keys == tf.vals.Keys
  {
  }

  lemma NotZero(v: Vector, t: string)
    requires v.Valid() && t in v.vals && v.vals[t] > 0.0
    ensures Dot(v, v, v.keys) != 0.0
  {
    hide Times;
    assert t in v.keys;
    var i :| 0 <= i < |v.keys| && v.keys[i] == t;
    DotWithout(v, v.keys, i);
    SquaresSign(v, Without(v.keys, i));
    SquareSign(v.vals[t]);
  }

  lemma SliceIsPrefix<T>(s: seq<T>, k: int)
    ensures Slice(s, k) <= s && (k >= 1 && |s| > 0 ==> |Slice(s, k)| > 0)
  {
  }

  lemma PathsIndexed(ops: seq<Op>)
    ensures Run(ops).docs.Valid() && forall p :: p in Run(ops).docs.keys <==> p in Run(ops).docs.vals
  {
    RunSound(ops);
  }

  lemma RoundsWithin(score: real)
    requires 0.0 <= score <= 1.0
    ensures 0.0 <= Round4(score) <= 1.0 && (score == 1.0 ==> Round4(score) == 1.0)
  {
    Round4IsRounding();
    RoundIntExact(0);
    RoundIntExact(10000);
    assert Round4(0.0) == 0.0 && Round4(1.0) == 1.0;
  }

  lemma {:induction false} HitsDistinct(log: real -> real, sqrt: real -> real, ix: Index, query: seq<string>, paths: seq<string>, minScore: real)
    requires Different(paths) && forall p <- paths :: p in ix.docs.vals
    ensures var among := HitsAmong(log, sqrt, ix, query, paths, minScore); Distinct(among) && |among| <= |paths|
  {
    hide Score, Round4;
    if |paths| > 0 {
      var front, p := paths[..|paths| - 1], paths[|paths| - 1];
      HitsDistinct(log, sqrt, ix, query, front, minScore);
      var h := Hit(p, Round4(Score(log, sqrt, ix, query, p)));
      HitsAre(log, sqrt, ix, query, front, minScore, h);
      assert p !in front;
    }
  }

  /** The hits before they are cut off: all of them, each once, best first. */
  lemma SortedHits(log: real -> real, sqrt: real -> real, ops: seq<Op>, query: seq<string>, minScore: real) returns (sorted: seq<Hit>)
    ensures sorted == SortBy(ByScore, HitsAmong(log, sqrt, Run(ops), query, Run(ops).docs.keys, minScore))
    ensures Distinct(sorted) && |sorted| <= |Run(ops).docs.keys|
    ensures forall h :: h in sorted <==> IsHit(log, sqrt, Run(ops), query, minScore, h)
    ensures forall i, j :: 0 <= i < j < |sorted| ==> sorted[j].score <= sorted[i].score
  {
    hide Run, Score, Round4, SortBy, IsHit, HitsAmong;
    var ix := Run(ops);
    PathsIndexed(ops);
    var among := HitsAmong(log, sqrt, ix, query, ix.docs.keys, minScore);
    sorted := SortBy(ByScore, among);
    SortKeeps(ByScore, among);
    HitsDistinct(log, sqrt, ix, query, ix.docs.keys, minScore);
    SortKeepsDistinct(ByScore, among);
    forall h ensures h in sorted <==> IsHit(log, sqrt, ix, query, minScore, h) {
      HitsAre(log, sqrt, ix, query, ix.docs.keys, minScore, h);
      HitIndexed(log, sqrt, ix, query, minScore, h);
      assert h in sorted <==> h in multiset(sorted);
      assert h in among <==> h in multiset(among);
    }
    forall i, j | 0 <= i < j < |sorted| ensures sorted[j].score <= sorted[i].score {
      assert ByScore(sorted[i]) <= ByScore(sorted[j]);
    }
  }

  lemma HitIndexed(log: real -> real, sqrt: real -> real, ix: Index, query: seq<string>, minScore: real, h: Hit)
    ensures IsHit(log, sqrt, ix, query, minScore, h) ==> h.path in ix.docs.vals
  {
    hide Score;
  }

  /** The first `n` of these hits: those left out score no higher. */
  lemma CutOff(sorted: seq<Hit>, topK: int, h: Hit)
    requires forall i, j :: 0 <= i < j < |sorted| ==> sorted[j].score <= sorted[i].score
    requires h in sorted && h !in Slice(sorted, topK)
    ensures forall g <- Slice(sorted, topK) :: g.score >= h.score
    ensures topK >= 0 ==> |Slice(sorted, topK)| == topK < |sorted|
  {
    var i :| 0 <= i < |sorted| && sorted[i] == h;
    var hits := Slice(sorted, topK);
    assert forall k :: 0 <= k < |hits| ==> hits[k] in hits && hits[k] == sorted[k];
    assert i >= |hits|;
  }

  /**
   Results come best first and name no note twice; each is an indexed note that scores high enough, with
   its score rounded, between 0 and 1; and an indexed note that scores high enough is left out only if
   the results are as many as asked for and score no less.
   */
  lemma SearchMeaning(log: real -> real, sqrt: real -> real, ops: seq<Op>, query: seq<string>, topK: int, minScore: real)
    requires IsLog(log) && IsSqrt(sqrt)
    ensures var hits := SearchTokens(log, sqrt, Run(ops), query, topK, minScore);
            && (forall i, j :: 0 <= i < j < |hits| ==> hits[j].score <= hits[i].score && hits[i].path != hits[j].path)
            && forall h <- hits :: IsHit(log, sqrt, Run(ops), query, minScore, h) && 0.0 <= h.score <= 1.0
    ensures var hits := SearchTokens(log, sqrt, Run(ops), query, topK, minScore);
            forall h :: |query| > 0 && IsHit(log, sqrt, Run(ops), query, minScore, h) && h !in hits ==>
              (forall g <- hits :: g.score >= h.score) && (topK >= 0 ==> |hits| == topK)
  {
    hide IsLog, IsSqrt, Run, Score, Round4, SortBy, Slice, HitsAmong, IsHit;
    var ix := Run(ops);
    var sorted := SortedHits(log, sqrt, ops, query, minScore);
    var hits := SearchTokens(log, sqrt, ix, query, topK, minScore);
    SliceIsPrefix(sorted, topK);
    PathsIndexed(ops);
    forall h | IsHit(log, sqrt, ix, query, minScore, h) ensures 0.0 <= h.score <= 1.0 && h.path in ix.docs.vals && |ix.docs.keys| > 0 {
      HitInRange(log, sqrt, ops, query, minScore, h);
    }
    forall i, j | 0 <= i < j < |hits| ensures hits[j].score <= hits[i].score && hits[i].path != hits[j].path {
      assert hits[i] == sorted[i] && hits[j] == sorted[j];
      SameHit(log, sqrt, ix, query, minScore, hits[i], hits[j]);
    }
    forall h | h in hits ensures h in sorted {
    }
    forall h | |query| > 0 && IsHit(log, sqrt, ix, query, minScore, h) && h !in hits
      ensures (forall g <- hits :: g.score >= h.score) && (topK >= 0 ==> |hits| == topK)
    {
      CutOff(sorted, topK, h);
    }
  }

  lemma SameHit(log: real -> real, sqrt: real -> real, ix: Index, query: seq<string>, minScore: real, g: Hit, h: Hit)
    requires IsHit(log, sqrt, ix, query, minScore, g) && IsHit(log, sqrt, ix, query, minScore, h)
    ensures g.path == h.path ==> g == h
  {
    hide Score, Round4;
  }

  lemma HitInRange(log: real -> real, sqrt: real -> real, ops: seq<Op>, query: seq<string>, minScore: real, h: Hit)
    requires IsLog(log) && IsSqrt(sqrt) && IsHit(log, sqrt, Run(ops), query, minScore, h)
    ensures 0.0 <= h.score <= 1.0 && h.path in Run(ops).docs.vals && |Run(ops).docs.keys| > 0
  {
    hide IsLog, IsSqrt, Run, Score, Round4;
    PathsIndexed(ops);
    assert h.path in Run(ops).docs.keys;
    ScoreInRange(log, sqrt, ops, query, h.path);
    RoundsWithin(Score(log, sqrt, Run(ops), query, h.path));
  }

  /**
   Searching for the text of an indexed note puts a full score first; and the note itself is found, with
   that score, when as many results are asked for as there are notes.
   */
  lemma OwnTextIsFound(log: real -> real, sqrt: real -> real, ops: seq<Op>, path: string, topK: int, minScore: real)
    requires IsLog(log) && IsSqrt(sqrt)
    requires Latest(ops, path) != None && Latest(ops, path).value != [] && topK >= 1 && minScore <= 1.0
    ensures var hits := SearchTokens(log, sqrt, Run(ops), Latest(ops, path).value, topK, minScore);
            |hits| > 0 && hits[0].score == 1.0 && (topK >= |Run(ops).docs.keys| ==> Hit(path, 1.0) in hits)
  {
    hide IsLog, IsSqrt, Run, Score, Round4, SortBy, Slice, HitsAmong, IsHit, Latest;
    var ix, query := Run(ops), Latest(ops, path).value;
    var sorted := SortedHits(log, sqrt, ops, query, minScore);
    var hits := SearchTokens(log, sqrt, ix, query, topK, minScore);
    OwnTextScoresOne(log, sqrt, ops, path);
    PathsIndexed(ops);
    var h := Hit(path, 1.0);
    FullHit(log, sqrt, ix, query, minScore, path);
    assert path in ix.docs.keys && h in sorted;
    SliceIsPrefix(sorted, topK);
    SearchMeaning(log, sqrt, ops, query, topK, minScore);
    var i :| 0 <= i < |sorted| && sorted[i] == h;
    assert hits[0] == sorted[0] && hits[0].score <= 1.0 && sorted[0].score >= sorted[i].score;
    if h !in hits {
      CutOff(sorted, topK, h);
    }
  }

  lemma FullHit(log: real -> real, sqrt: real -> real, ix: Index, query: seq<string>, minScore: real, path: string)
    requires path in ix.docs.vals && Score(log, sqrt, ix, query, path) == 1.0 && minScore <= 1.0
    ensures IsHit(log, sqrt, ix, query, minScore, Hit(path, 1.0))
  {
    hide Score;
    RoundsWithin(1.0);
  }
}
