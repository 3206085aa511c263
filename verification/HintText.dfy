/**
 How a hint is cut into words and alternatives.  `Strip`, `SplitWs` and `OrSplit` are the string
 operations the program performs; `Words` and `Alternatives` say the same on words, without
 positions.
 */
module HintText {
  import opened Base

  /** White space as both `str.strip` and the pattern `\s` see it. */
  const SPACES: string :=
    "\U{9}\U{a}\U{b}\U{c}\U{d}\U{1c}\U{1d}\U{1e}\U{1f} \U{85}\U{a0}\U{1680}\U{2000}\U{2001}\U{2002}\U{2003}\U{2004}\U{2005}\U{2006}\U{2007}\U{2008}\U{2009}\U{200a}\U{2028}\U{2029}\U{202f}\U{205f}\U{3000}"

  predicate IsSpace(c: char) {
    c in SPACES
  }

  /** The end of the run of white space that starts at `i`, looking no further than `n`. */
  function SpaceEnd(s: string, i: nat, n: nat): (j: nat)
    requires i <= n <= |s|
    ensures i <= j <= n
    ensures forall k :: i <= k < j ==> IsSpace(s[k])
    ensures j < n ==> !IsSpace(s[j])
    decreases n - i
  {
    if i < n && IsSpace(s[i]) then SpaceEnd(s, i + 1, n) else i
  }

  /** The end of the run of other characters that starts at `i`. */
  function WordEnd(s: string, i: nat, n: nat): (j: nat)
    requires i <= n <= |s|
    ensures i <= j <= n
    ensures forall k :: i <= k < j ==> !IsSpace(s[k])
    ensures j < n ==> IsSpace(s[j])
    decreases n - i
  {
    if i < n && !IsSpace(s[i]) then WordEnd(s, i + 1, n) else i
  }

  /** The words that stand between positions `i` and `n`. */
  function WordsIn(s: string, i: nat, n: nat): seq<string>
    requires i <= n <= |s|
    decreases n - i
  {
    var b := SpaceEnd(s, i, n);
    if b == n then []
    else
      var e := WordEnd(s, b, n);
      [s[b..e]] + WordsIn(s, e, n)
  }

  function Words(s: string): seq<string> {
    WordsIn(s, 0, |s|)
  }

  predicate IsWord(w: string) {
    w != "" && forall k :: 0 <= k < |w| ==> !IsSpace(w[k])
  }

  lemma {:induction false} WordsAreWords(s: string, i: nat, n: nat)
    requires i <= n <= |s|
    ensures forall w :: w in WordsIn(s, i, n) ==> IsWord(w)
    decreases n - i
  {
    var b := SpaceEnd(s, i, n);
    if b < n {
      var e := WordEnd(s, b, n);
      WordsAreWords(s, e, n);
    }
  }

  // ---- The program's string operations ----

  function Strip(s: string): string {
    var b := SpaceEnd(s, 0, |s|);
    s[b..LastNonSpace(s, b, |s|)]
  }

  /** `n` moved left over white space, but not past `b`. */
  function LastNonSpace(s: string, b: nat, n: nat): (j: nat)
    requires b <= n <= |s|
    ensures b <= j <= n
    ensures j == b || !IsSpace(s[j - 1])
    ensures forall k :: j <= k < n ==> IsSpace(s[k])
  {
    if b < n && IsSpace(s[n - 1]) then LastNonSpace(s, b, n - 1) else n
  }

  /** `re.split(r"\s+", s)`, from position `i` on. */
  function SplitWs(s: string, i: nat): seq<string>
    requires i <= |s|
    decreases |s| - i
  {
    var e := WordEnd(s, i, |s|);
    if e == |s| then [s[i..]]
    else [s[i..e]] + SplitWs(s, SpaceEnd(s, e, |s|))
  }

  /** Where a match of the pattern `(?i)\s+OR\s+` that starts at `i` ends, if there is one. */
  function OrMatch(s: string, i: nat): (r: Option<nat>)
    requires i < |s|
    ensures r.Some? ==> i < r.value <= |s|
  {
    var j := SpaceEnd(s, i, |s|);
    if i == j || j + 2 > |s| || !IsOr(s[j..j + 2]) then None
    else
      var k := SpaceEnd(s, j + 2, |s|);
      if k == j + 2 then None else Some(k)
  }

  predicate IsOr(w: string): (r: bool)
    ensures r <==> w == "or" || w == "oR" || w == "Or" || w == "OR"
  {
    |w| == 2 && (w[0] == 'o' || w[0] == 'O') && (w[1] == 'r' || w[1] == 'R')
  }

  /** Splits at `OR`: the part being read started at `start`, the search has reached `i`. */
  function OrSplit(s: string, start: nat, i: nat): seq<string>
    requires start <= i <= |s|
    decreases |s| - i
  {
    if i == |s| then [s[start..]]
    else
      match OrMatch(s, i)
      case Some(k) => [s[start..i]] + OrSplit(s, k, k)
      case None => OrSplit(s, start, i + 1)
  }

  // ---- The same on words ----

  /**
   The alternatives of a list of words.  An `or` separates two alternatives when a word stands
   before it in its alternative and another word follows it; any other `or` is a word.
   */
  function Alternatives(ts: seq<string>, cur: seq<string>): seq<seq<string>>
    decreases |ts|
  {
    if |ts| == 0 then [cur]
    else if IsOr(ts[0]) && |cur| > 0 && |ts| > 1 then [cur] + Alternatives(ts[1..], [])
    else Alternatives(ts[1..], cur + [ts[0]])
  }

  // ---- The two agree ----

  ghost predicate Blank(s: string, i: nat, j: nat)
    requires i <= j <= |s|
  {
    forall k :: i <= k < j ==> IsSpace(s[k])
  }

  ghost predicate Solid(s: string, i: nat, j: nat)
    requires i <= j <= |s|
  {
    forall k :: i <= k < j ==> !IsSpace(s[k])
  }

  /** The first word between `i` and `n` is the one from `b` to `e`. */
  ghost predicate FirstWord(s: string, i: nat, b: nat, e: nat, n: nat) {
    i <= b < e <= n <= |s| && Blank(s, i, b) && Solid(s, b, e) && (e < n ==> IsSpace(s[e]))
  }

  lemma SpaceEndIs(s: string, i: nat, j: nat, n: nat)
    requires i <= j <= n <= |s| && Blank(s, i, j) && (j < n ==> !IsSpace(s[j]))
    ensures SpaceEnd(s, i, n) == j
  {
  }

  lemma WordEndIs(s: string, i: nat, j: nat, n: nat)
    requires i <= j <= n <= |s| && Solid(s, i, j) && (j < n ==> IsSpace(s[j]))
    ensures WordEnd(s, i, n) == j
  {
  }

  lemma WordsStep(s: string, i: nat, b: nat, e: nat, n: nat)
    requires FirstWord(s, i, b, e, n)
    ensures WordsIn(s, i, n) == [s[b..e]] + WordsIn(s, e, n)
  {
    SpaceEndIs(s, i, b, n);
    WordEndIs(s, b, e, n);
  }

  lemma WordsNone(s: string, i: nat, n: nat)
    requires i <= n <= |s| && Blank(s, i, n)
    ensures WordsIn(s, i, n) == []
  {
    SpaceEndIs(s, i, n, n);
  }

  /** There is a first word, or there are none. */
  lemma FindWord(s: string, i: nat, n: nat) returns (b: nat, e: nat)
    requires i <= n <= |s|
    ensures i <= b <= e <= n
    ensures if b == n then Blank(s, i, n) else FirstWord(s, i, b, e, n)
    ensures b == SpaceEnd(s, i, n) && e == WordEnd(s, b, n)
  {
    b := SpaceEnd(s, i, n);
    e := WordEnd(s, b, n);
  }

  lemma SliceOfSlice(s: string, a: nat, b: nat, e: nat, n: nat)
    requires a <= b <= e <= n <= |s|
    ensures s[a..n][b - a..e - a] == s[b..e]
  {
    var x, y := s[a..n][b - a..e - a], s[b..e];
    assert |x| == |y|;
    forall k | 0 <= k < |x| ensures x[k] == y[k] {
      assert x[k] == s[a..n][b - a + k];
    }
  }

  lemma {:induction false} WordsOfSlice(s: string, a: nat, i: nat, n: nat)
    requires a <= i <= n <= |s|
    ensures WordsIn(s[a..n], i - a, n - a) == WordsIn(s, i, n)
    decreases n - i
  {
    hide WordsIn, SpaceEnd, WordEnd, IsSpace;
    var t := s[a..n];
    var b, e := FindWord(s, i, n);
    if b == n {
      WordsNone(s, i, n);
      WordsNone(t, i - a, n - a);
    } else {
      WordsStep(s, i, b, e, n);
      WordsStep(t, i - a, b - a, e - a, n - a);
      SliceOfSlice(s, a, b, e, n);
      WordsOfSlice(s, a, e, n);
    }
  }

  lemma SliceWords(s: string, a: nat, n: nat)
    requires a <= n <= |s|
    ensures Words(s[a..n]) == WordsIn(s, a, n)
  {
    hide WordsIn, SpaceEnd, WordEnd;
    WordsOfSlice(s, a, a, n);
  }

  /** Words can be cut wherever white space stands on one side of the cut. */
  lemma {:induction false} WordsAppend(s: string, a: nat, b: nat, c: nat)
    requires a <= b <= c <= |s|
    requires b == c || IsSpace(s[b]) || b == a || IsSpace(s[b - 1])
    ensures WordsIn(s, a, c) == WordsIn(s, a, b) + WordsIn(s, b, c)
    decreases b - a
  {
    hide WordsIn, SpaceEnd, WordEnd, IsSpace;
    var x, e := FindWord(s, a, b);
    if x == b {
      WordsNone(s, a, b);
      SkipSpace(s, a, b, c);
    } else {
      WordsStep(s, a, x, e, b);
      WordsStep(s, a, x, e, c);
      WordsAppend(s, e, b, c);
    }
  }

  lemma OneWord(s: string, b: nat, e: nat)
    requires b < e <= |s| && Solid(s, b, e)
    ensures WordsIn(s, b, e) == [s[b..e]]
  {
    hide WordsIn, SpaceEnd, WordEnd, IsSpace;
    WordsStep(s, b, b, e, e);
    WordsNone(s, e, e);
  }

  lemma SkipSpace(s: string, i: nat, j: nat, n: nat)
    requires i <= j <= n <= |s| && Blank(s, i, j)
    ensures WordsIn(s, i, n) == WordsIn(s, j, n)
  {
    hide WordsIn, SpaceEnd, WordEnd, IsSpace;
    var b, e := FindWord(s, j, n);
    if b == n {
      WordsNone(s, i, n);
      WordsNone(s, j, n);
    } else {
      WordsStep(s, j, b, e, n);
      WordsStep(s, i, b, e, n);
    }
  }

  lemma StripEnds(s: string)
    ensures Strip(s) != "" ==> !IsSpace(Strip(s)[0]) && !IsSpace(Strip(s)[|Strip(s)| - 1])
    ensures Strip(s) == "" <==> Blank(s, 0, |s|)
  {
  }

  /** What is stripped is white space, at the two ends, and all of it. */
  lemma StripMeaning(s: string) returns (b: nat, e: nat)
    ensures b <= e <= |s| && Strip(s) == s[b..e]
    ensures (forall k :: 0 <= k < b || e <= k < |s| ==> IsSpace(s[k]))
    ensures b < e ==> !IsSpace(s[b]) && !IsSpace(s[e - 1])
  {
    b := SpaceEnd(s, 0, |s|);
    e := LastNonSpace(s, b, |s|);
  }

  lemma StripWords(s: string)
    ensures Words(Strip(s)) == Words(s)
  {
    hide WordsIn, SpaceEnd, WordEnd, IsSpace;
    var b := SpaceEnd(s, 0, |s|);
    var e := LastNonSpace(s, b, |s|);
    SliceWords(s, b, e);
    SkipSpace(s, 0, b, |s|);
    WordsAppend(s, b, e, |s|);
    WordsNone(s, e, |s|);
  }

  /** With no white space at either end, no piece is empty. */
  lemma {:induction false} SplitWsExact(s: string, i: nat)
    requires i < |s| && !IsSpace(s[i]) && !IsSpace(s[|s| - 1])
    ensures SplitWs(s, i) == WordsIn(s, i, |s|)
    decreases |s| - i
  {
    hide WordsIn, SpaceEnd, WordEnd, IsSpace;
    var n := |s|;
    var e := WordEnd(s, i, n);
    WordsStep(s, i, i, e, n);
    if e == n {
      WordsNone(s, n, n);
      assert s[i..] == s[i..e];
    } else {
      var b := SpaceEnd(s, e, n);
      SplitWsExact(s, b);
      SkipSpace(s, e, b, n);
    }
  }

  lemma {:induction false} NoOrInside(s: string, start: nat, i: nat, j: nat)
    requires start <= i <= j <= |s|
    requires forall k :: i <= k < j ==> OrMatch(s, k) == None
    ensures OrSplit(s, start, i) == OrSplit(s, start, j)
    decreases j - i
  {
    hide OrMatch, SpaceEnd;
    if i < j {
      NoOrInside(s, start, i + 1, j);
    }
  }

  lemma NoOrInWord(s: string, start: nat, i: nat, j: nat)
    requires start <= i <= j <= |s|
    requires forall k :: i <= k < j ==> !IsSpace(s[k])
    ensures OrSplit(s, start, i) == OrSplit(s, start, j)
  {
    forall k | i <= k < j ensures OrMatch(s, k) == None {
      SpaceEndIs(s, k, k, |s|);
    }
    NoOrInside(s, start, i, j);
  }

  /** The part that starts at the word at `k`: its first word is never a separator. */
  lemma StartPart(s: string, k: nat)
    requires k < |s| && !IsSpace(s[k]) && !IsSpace(s[|s| - 1])
    ensures Map(p => Words(p), OrSplit(s, k, k)) == Alternatives(WordsIn(s, k, |s|), [])
    decreases |s| - k, 1
  {
    hide WordsIn, OrSplit;
    var e := WordEnd(s, k, |s|);
    NoOrInWord(s, k, k, e);
    WordsStep(s, k, k, e, |s|);
    var ts := WordsIn(s, k, |s|);
    assert ts[1..] == WordsIn(s, e, |s|);
    SliceWords(s, k, e);
    OneWord(s, k, e);
    assert [] + [s[k..e]] == [s[k..e]];
    OrSplitWords(s, k, e);
  }

  /** In the middle of a part, just after one of its words. */
  lemma OrSplitWords(s: string, start: nat, i: nat)
    requires start < i <= |s| && !IsSpace(s[start]) && !IsSpace(s[|s| - 1])
    requires !IsSpace(s[i - 1]) && (i < |s| ==> IsSpace(s[i]))
    ensures Map(p => Words(p), OrSplit(s, start, i)) == Alternatives(WordsIn(s, i, |s|), Words(s[start..i]))
    decreases |s| - i, 0
  {
    hide WordsIn, Words, SpaceEnd, WordEnd;
    var n := |s|;
    var cur := Words(s[start..i]);
    if i == n {
      assert s[start..] == s[start..i];
      assert Map(p => Words(p), [s[start..]]) == [cur];
      WordsNone(s, n, n);
    } else {
      var j := SpaceEnd(s, i, n);
      var e := WordEnd(s, j, n);
      match OrMatch(s, i) {
        case Some(k) =>
          StartPart(s, k);
          AtSeparator(s, start, i, j, k);
          var rest := OrSplit(s, k, k);
          assert Map(p => Words(p), [s[start..i]] + rest) == [cur] + Map(p => Words(p), rest);
        case None =>
          NotASeparator(s, i, j, e);
          NoOrInside(s, start, i, j);
          NoOrInWord(s, start, j, e);
          AtWord(s, start, i, j, e);
          OrSplitWords(s, start, e);
      }
    }
  }

  /** A match at `i` covers exactly one word, an `or`, and another word follows. */
  lemma AtSeparator(s: string, start: nat, i: nat, j: nat, k: nat)
    requires start < i < j < k <= |s| && j == SpaceEnd(s, i, |s|) && OrMatch(s, i) == Some(k)
    requires !IsSpace(s[start]) && !IsSpace(s[i - 1]) && !IsSpace(s[|s| - 1])
    ensures k < |s| && !IsSpace(s[k]) && |Words(s[start..i])| > 0
    ensures var ts := WordsIn(s, i, |s|); |ts| > 1 && IsOr(ts[0]) && ts[1..] == WordsIn(s, k, |s|)
  {
    hide WordsIn, SpaceEnd, WordEnd, IsSpace;
    var n := |s|;
    MatchedOr(s, i, j, k);
    WordsStep(s, i, j, j + 2, n);
    SkipSpace(s, j + 2, k, n);
    SomeWord(s, k, n);
    SliceWords(s, start, i);
    SomeWord(s, start, i);
  }

  lemma MatchedOr(s: string, i: nat, j: nat, k: nat)
    requires i < j < k <= |s| && j == SpaceEnd(s, i, |s|) && OrMatch(s, i) == Some(k)
    requires !IsSpace(s[|s| - 1])
    ensures j + 2 < k < |s| && !IsSpace(s[k]) && IsOr(s[j..j + 2]) && Blank(s, j + 2, k)
    ensures FirstWord(s, i, j, j + 2, |s|)
  {
    hide IsSpace, SpaceEnd;
    RIsNoSpace();
    assert s[j..j + 2][1] == s[j + 1];
  }

  lemma RIsNoSpace()
    ensures !IsSpace('r') && !IsSpace('R')
  {
  }

  lemma SomeWord(s: string, i: nat, n: nat)
    requires i < n <= |s| && !IsSpace(s[i])
    ensures |WordsIn(s, i, n)| > 0
  {
    hide WordsIn, SpaceEnd, WordEnd, IsSpace;
    var b, e := FindWord(s, i, n);
    WordsStep(s, i, b, e, n);
  }

  lemma AtWord(s: string, start: nat, i: nat, j: nat, e: nat)
    requires start < i < j < e <= |s| && j == SpaceEnd(s, i, |s|) && e == WordEnd(s, j, |s|)
    requires IsSpace(s[i])
    ensures var ts := WordsIn(s, i, |s|); |ts| > 0 && ts[0] == s[j..e] && ts[1..] == WordsIn(s, e, |s|)
    ensures Words(s[start..e]) == Words(s[start..i]) + [s[j..e]]
  {
    hide WordsIn, SpaceEnd, WordEnd, IsSpace;
    WordsStep(s, i, j, e, |s|);
    WordsAppend(s, start, i, e);
    SkipSpace(s, i, j, e);
    OneWord(s, j, e);
    SliceWords(s, start, i);
    SliceWords(s, start, e);
  }

  lemma NotASeparator(s: string, i: nat, j: nat, e: nat)
    requires i < j < e <= |s| && j == SpaceEnd(s, i, |s|) && e == WordEnd(s, j, |s|)
    requires OrMatch(s, i) == None
    ensures WordsIn(s, e, |s|) == [] || !IsOr(s[j..e])
    ensures forall k :: i <= k < j ==> OrMatch(s, k) == None
  {
    hide WordsIn, SpaceEnd, WordEnd, IsSpace;
    forall k | i <= k < j ensures OrMatch(s, k) == None {
      SpaceEndIs(s, k, j, |s|);
    }
    if e == |s| {
      WordsNone(s, e, e);
    }
  }

  /** Splitting the stripped hint at `OR` and cutting each part into words agrees with `Alternatives`. */
  lemma OrSplitMeaning(s: string)
    ensures Map(p => Words(p), OrSplit(Strip(s), 0, 0)) == Alternatives(Words(s), [])
  {
    StripWords(s);
    StripEnds(s);
    var t := Strip(s);
    if t == "" {
      assert OrSplit(t, 0, 0) == [""];
      assert Words("") == [];
    } else {
      StartPart(t, 0);
    }
  }
}
