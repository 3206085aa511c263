/** The text index over wiki notes: how often each token occurs in each note, and in how many notes. */
module VectorIndex {
  import opened Base
  import opened Dicts

  /** A sparse vector; tokens in the order in which they were first met. */
  type Vector = Dict<string, real>

  /** Notes with their term frequencies, and for each token the number of notes that hold it. */
  datatype Index = Index(docs: Dict<string, Vector>, df: map<string, int>)

  function Count(tokens: seq<string>, t: string): nat {
    if |tokens| == 0 then 0 else Count(tokens[..|tokens| - 1], t) + if tokens[|tokens| - 1] == t then 1 else 0
  }

  function Get(counts: map<string, int>, t: string): int {
    if t in counts then counts[t] else 0
  }

  function Counts(tokens: seq<string>): (d: Dict<string, int>)
    ensures d.Valid()
  {
    if |tokens| == 0 then Empty()
    else
      var d, t := Counts(tokens[..|tokens| - 1]), tokens[|tokens| - 1];
      Set(d, t, Get(d.vals, t) + 1)
  }

  /** Each token's share of all tokens. */
  function BuildTf(tokens: seq<string>): (v: Vector)
    ensures v.Valid()
  {
    if |tokens| == 0 then Empty()
    else
      var counts := Counts(tokens);
      var v := Dict(counts.keys, map t | t in counts.vals :: counts.vals[t] as real / |tokens| as real);
      assert v.Valid() by { assert forall k <- v.keys :: k in counts.vals; }
      v
  }

  lemma {:induction false} CountsAre(tokens: seq<string>, t: string)
    ensures var d := Counts(tokens).vals; Get(d, t) == Count(tokens, t) && (t in d <==> t in tokens) && (t in d ==> d[t] > 0)
  {
    if |tokens| > 0 {
      CountsAre(tokens[..|tokens| - 1], t);
      assert tokens == tokens[..|tokens| - 1] + [tokens[|tokens| - 1]];
    }
  }

  /** The frequencies are those of exactly the tokens that occur, and positive. */
  lemma TfMeaning(tokens: seq<string>, t: string)
    ensures t in BuildTf(tokens).vals <==> t in tokens
    ensures t in tokens ==> BuildTf(tokens).vals[t] == Count(tokens, t) as real / |tokens| as real > 0.0
  {
    CountsAre(tokens, t);
    if t in tokens {
      Quotient(Count(tokens, t) as real, |tokens| as real);
    }
  }

  lemma Quotient(p: real, q: real)
    requires p > 0.0 && q > 0.0
    ensures p / q > 0.0
  {
  }

  // ---- Document frequencies ----

  /** One note less for each of the tokens; a token that no note holds any more is dropped. */
  function Decrease(df: map<string, int>, ts: seq<string>): map<string, int> {
    if |ts| == 0 then df
    else
      var before, t := Decrease(df, ts[..|ts| - 1]), ts[|ts| - 1];
      var n := (if t in before then before[t] else 1) - 1;
      var left := if n < 0 then 0 else n;
      if left == 0 then before - {t} else before[t := left]
  }

  function Increase(df: map<string, int>, ts: seq<string>): map<string, int> {
    if |ts| == 0 then df
    else
      var before, t := Increase(df, ts[..|ts| - 1]), ts[|ts| - 1];
      before[t := Get(before, t) + 1]
  }

  function Removed<V>(d: Dict<string, V>, k: string): (r: Dict<string, V>)
    ensures d.Valid() ==> r.Valid()
  {
    OmitDifferent(d.keys, k);
    assert forall i :: 0 <= i < |Omit(d.keys, k)| ==> Omit(d.keys, k)[i] in Omit(d.keys, k);
    Dict(Omit(d.keys, k), d.vals - {k})
  }

  function Omit(keys: seq<string>, k: string): (r: seq<string>)
    ensures forall x :: x in r <==> x in keys && x != k
  {
    if |keys| == 0 then []
    else
      assert keys == keys[..|keys| - 1] + [keys[|keys| - 1]];
      var before := Omit(keys[..|keys| - 1], k);
      if keys[|keys| - 1] == k then before else before + [keys[|keys| - 1]]
  }

  function Unlisted(ix: Index, path: string): map<string, int> {
    if path in ix.docs.vals then Decrease(ix.df, ix.docs.vals[path].keys) else ix.df
  }

  function IndexNote(ix: Index, path: string, tokens: seq<string>): Index {
    var tf := BuildTf(tokens);
    Index(Set(ix.docs, path, tf), Increase(Unlisted(ix, path), tf.keys))
  }

  function RemoveNote(ix: Index, path: string): Index {
    if path !in ix.docs.vals then ix else Index(Removed(ix.docs, path), Unlisted(ix, path))
  }

  class WikiVectorIndex {
    var docs: Dict<string, Vector>
    var df: map<string, int>

    ghost function State(): Index
      reads this
    {
      Index(docs, df)
    }

    constructor ()
      ensures State() == Index(Empty(), map[])
    {
      docs, df := Empty(), map[];
    }

    method IndexTokens(path: string, tokens: seq<string>)
      modifies this
      ensures State() == IndexNote(old(State()), path, tokens)
    {
      hide BuildTf, Decrease, Increase;
      var tf := BuildTfByLoop(tokens);
      if path in docs.vals { Unlist(docs.vals[path].keys); }
      docs := Set(docs, path, tf);
      List(tf.keys);
    }

    method List(ts: seq<string>)
      modifies this`df
      ensures df == Increase(old(df), ts)
    {
      for i := 0 to |ts|
        invariant df == Increase(old(df), ts[..i])
      {
        assert ts[..i + 1][..i] == ts[..i];
        df := df[ts[i] := Get(df, ts[i]) + 1];
      }
      assert ts[..|ts|] == ts;
    }

    method Remove(path: string)
      modifies this
      ensures State() == RemoveNote(old(State()), path)
    {
      if path !in docs.vals { return; }
      Unlist(docs.vals[path].keys);
      docs := Removed(docs, path);
    }

    method Unlist(ts: seq<string>)
      modifies this`df
      ensures df == Decrease(old(df), ts)
    {
      for i := 0 to |ts|
        invariant df == Decrease(old(df), ts[..i])
      {
        assert ts[..i + 1][..i] == ts[..i];
        var n := (if ts[i] in df then df[ts[i]] else 1) - 1;
        df := df[ts[i] := if n < 0 then 0 else n];
        if df[ts[i]] == 0 { df := df - {ts[i]}; }
      }
      assert ts[..|ts|] == ts;
    }

    method BuildTfByLoop(tokens: seq<string>) returns (tf: Vector)
      ensures tf == BuildTf(tokens)
    {
      if |tokens| == 0 { return Empty(); }
      var counts: Dict<string, int> := Empty();
      for i := 0 to |tokens|
        invariant counts == Counts(tokens[..i])
      {
        assert tokens[..i + 1][..i] == tokens[..i];
        counts := Set(counts, tokens[i], Get(counts.vals, tokens[i]) + 1);
      }
      assert tokens[..|tokens|] == tokens;
      tf := Dict(counts.keys, map t | t in counts.vals :: counts.vals[t] as real / |tokens| as real);
    }
  }

  /** The notes that hold a token. */
  ghost function Holders(docs: map<string, Vector>, t: string): set<string> {
    set d | d in docs && t in docs[d].vals
  }

  /** The frequencies are exact, and there is no entry of zero. */
  ghost predicate Exact(docs: map<string, Vector>, df: map<string, int>) {
    forall t :: Get(df, t) == |Holders(docs, t)| && (t in df <==> Holders(docs, t) != {})
  }

  ghost predicate Sound(ix: Index) {
    && ix.docs.Valid() && (forall d <- ix.docs.vals :: ix.docs.vals[d].Valid())
    && Exact(ix.docs.vals, ix.df)
  }

  ghost predicate Different(ts: seq<string>) {
    forall i, j :: 0 <= i < j < |ts| ==> ts[i] != ts[j]
  }

  lemma {:induction false} DecreaseIs(df: map<string, int>, ts: seq<string>, t: string)
    requires Different(ts) && forall x <- df :: df[x] > 0
    requires forall x <- ts :: x in df
    ensures var r := Decrease(df, ts);
            && Get(r, t) == Get(df, t) - (if t in ts then 1 else 0)
            && (t in r <==> Get(r, t) > 0)
    decreases |ts|
  {
    if |ts| > 0 {
      var front, last := ts[..|ts| - 1], ts[|ts| - 1];
      assert ts == front + [last];
      DecreaseIs(df, front, t);
      DecreaseIs(df, front, last);
    }
  }

  lemma {:induction false} IncreaseIs(df: map<string, int>, ts: seq<string>, t: string)
    requires Different(ts)
    ensures var r := Increase(df, ts);
            && Get(r, t) == Get(df, t) + (if t in ts then 1 else 0)
            && (t in r <==> t in df || t in ts)
    decreases |ts|
  {
    if |ts| > 0 {
      var front, last := ts[..|ts| - 1], ts[|ts| - 1];
      assert ts == front + [last];
      IncreaseIs(df, front, t);
      IncreaseIs(df, front, last);
    }
  }

  lemma HoldersWithout(docs: map<string, Vector>, path: string, t: string)
    ensures var less := Holders(docs - {path}, t);
            && |less| == |Holders(docs, t)| - (if path in docs && t in docs[path].vals then 1 else 0)
            && less == Holders(docs, t) - {path}
  {
    var all := Holders(docs, t);
    assert Holders(docs - {path}, t) == all - {path};
  }

  lemma HoldersWith(docs: map<string, Vector>, path: string, tf: Vector, t: string)
    requires path !in docs
    ensures var more := Holders(docs[path := tf], t);
            && |more| == |Holders(docs, t)| + (if t in tf.vals then 1 else 0)
            && more == Holders(docs, t) + (if t in tf.vals then {path} else {})
  {
    assert Holders(docs[path := tf], t) == Holders(docs, t) + (if t in tf.vals then {path} else {});
  }

  lemma UnlistedExact(ix: Index, path: string)
    requires Sound(ix)
    ensures Exact(ix.docs.vals - {path}, Unlisted(ix, path))
  {
    hide Decrease, Holders;
    forall t ensures Get(Unlisted(ix, path), t) == |Holders(ix.docs.vals - {path}, t)|
             && (t in Unlisted(ix, path) <==> Holders(ix.docs.vals - {path}, t) != {})
    {
      HoldersWithout(ix.docs.vals, path, t);
      if path in ix.docs.vals {
        ListedPositive(ix, path);
        DecreaseIs(ix.df, ix.docs.vals[path].keys, t);
      }
    }
  }

  /** The guard against going below zero never acts: every token of an indexed note has an entry. */
  lemma ListedPositive(ix: Index, path: string)
    requires Sound(ix) && path in ix.docs.vals
    ensures Different(ix.docs.vals[path].keys) && (forall x <- ix.docs.vals[path].keys :: x in ix.df && ix.df[x] >= 1)
    ensures forall x <- ix.df :: ix.df[x] > 0
  {
    forall x <- ix.df ensures ix.df[x] > 0 {
      assert Get(ix.df, x) == |Holders(ix.docs.vals, x)|;
    }
    forall x <- ix.docs.vals[path].keys ensures x in ix.df {
      assert path in Holders(ix.docs.vals, x);
    }
  }

  lemma IndexSound(ix: Index, path: string, tokens: seq<string>)
    requires Sound(ix)
    ensures Sound(IndexNote(ix, path, tokens))
  {
    hide Increase, Holders, BuildTf, Unlisted;
    var tf, less, left := BuildTf(tokens), ix.docs.vals - {path}, Unlisted(ix, path);
    UnlistedExact(ix, path);
    assert ix.docs.vals[path := tf] == less[path := tf];
    forall t ensures Get(Increase(left, tf.keys), t) == |Holders(less[path := tf], t)|
             && (t in Increase(left, tf.keys) <==> Holders(less[path := tf], t) != {})
    {
      HoldersWith(less, path, tf, t);
      IncreaseIs(left, tf.keys, t);
    }
  }

  lemma {:induction false} OmitDifferent(keys: seq<string>, k: string)
    ensures Different(keys) ==> Different(Omit(keys, k))
  {
    if |keys| > 0 && Different(keys) {
      var front, last := keys[..|keys| - 1], keys[|keys| - 1];
      OmitDifferent(front, k);
      assert forall x <- front :: x != last;
      var r := Omit(front, k);
      forall i | 0 <= i < |r| ensures r[i] != last {
        assert r[i] in r;
      }
    }
  }

  lemma RemoveSound(ix: Index, path: string)
    requires Sound(ix)
    ensures Sound(RemoveNote(ix, path))
  {
    hide Holders, Unlisted, Dict.Valid;
    UnlistedExact(ix, path);
  }

  // ---- Runs ----

  datatype Op = IndexOp(path: string, tokens: seq<string>) | RemoveOp(path: string)

  function Apply(ix: Index, op: Op): Index {
    match op
    case IndexOp(path, tokens) => IndexNote(ix, path, tokens)
    case RemoveOp(path) => RemoveNote(ix, path)
  }

  function Run(ops: seq<Op>): (ix: Index)
    ensures ix.docs.Valid()
  {
    if |ops| == 0 then Index(Empty(), map[]) else Apply(Run(ops[..|ops| - 1]), ops[|ops| - 1])
  }

  /** The tokens a note was last indexed with, unless it was removed since. */
  function Latest(ops: seq<Op>, path: string): Option<seq<string>> {
    if |ops| == 0 then None
    else
      var op := ops[|ops| - 1];
      if op.path != path then Latest(ops[..|ops| - 1], path)
      else if op.IndexOp? then Some(op.tokens)
      else None
  }

  lemma NothingIndexed()
    ensures Sound(Index(Empty(), map[]))
  {
    forall t ensures Holders(map[], t) == {} {
    }
  }

  /** After any run the frequencies are exact, so the index holds no entry of zero. */
  lemma {:induction false} RunSound(ops: seq<Op>)
    ensures Sound(Run(ops))
  {
    hide Sound;
    if |ops| > 0 {
      var before, op := Run(ops[..|ops| - 1]), ops[|ops| - 1];
      RunSound(ops[..|ops| - 1]);
      match op
      case IndexOp(path, tokens) => IndexSound(before, path, tokens);
      case RemoveOp(path) => RemoveSound(before, path);
    } else {
      NothingIndexed();
    }
  }

  lemma {:induction false} RunHolds(ops: seq<Op>, path: string)
    ensures var docs := Run(ops).docs.vals;
            && (path in docs <==> Latest(ops, path) != None)
            && (path in docs ==> docs[path] == BuildTf(Latest(ops, path).value))
  {
    hide BuildTf, Increase, Decrease;
    if |ops| > 0 {
      RunHolds(ops[..|ops| - 1], path);
    }
  }

  lemma ExactDetermines(docs: map<string, Vector>, a: map<string, int>, b: map<string, int>)
    requires Exact(docs, a) && Exact(docs, b)
    ensures a == b
  {
    hide Holders;
    forall t ensures (t in a <==> t in b) && (t in a ==> a[t] == b[t]) {
      assert Get(a, t) == Get(b, t);
      assert t in a <==> Holders(docs, t) != {};
      assert t in b <==> Holders(docs, t) != {};
    }
  }

  /** Any two runs after which the same notes have the same latest text leave the same notes and frequencies. */
  lemma RunsAgree(a: seq<Op>, b: seq<Op>)
    requires forall path :: Latest(a, path) == Latest(b, path)
    ensures Run(a).docs.vals == Run(b).docs.vals && Run(a).df == Run(b).df
  {
    hide Run, Latest, BuildTf;
    var x, y := Run(a).docs.vals, Run(b).docs.vals;
    forall path ensures (path in x <==> path in y) && (path in x ==> x[path] == y[path]) {
      RunHolds(a, path);
      RunHolds(b, path);
    }
    assert x == y;
    RunSound(a);
    RunSound(b);
    ExactDetermines(x, Run(a).df, Run(b).df);
  }
}
