/** A stable sort by a numeric key, least first. */
module Sorting {
  import opened Base

  /** `x` put behind every element whose key is not above its own. */
  function InsertBy<T>(key: T -> real, x: T, s: seq<T>): seq<T> {
    if |s| > 0 && key(s[|s| - 1]) > key(x) then InsertBy(key, x, s[..|s| - 1]) + [s[|s| - 1]]
    else s + [x]
  }

  function SortBy<T>(key: T -> real, s: seq<T>): seq<T> {
    if |s| == 0 then [] else InsertBy(key, s[|s| - 1], SortBy(key, s[..|s| - 1]))
  }

  ghost predicate Ascending<T>(key: T -> real, s: seq<T>) {
    forall i, j :: 0 <= i < j < |s| ==> key(s[i]) <= key(s[j])
  }

  ghost predicate AtMost<T>(key: T -> real, s: seq<T>, p: real) {
    forall i :: 0 <= i < |s| ==> key(s[i]) <= p
  }

  lemma {:induction false} InsertBounded<T>(key: T -> real, x: T, s: seq<T>, p: real)
    requires AtMost(key, s, p) && key(x) <= p
    ensures AtMost(key, InsertBy(key, x, s), p)
    decreases |s|
  {
    if |s| > 0 && key(s[|s| - 1]) > key(x) {
      InsertBounded(key, x, s[..|s| - 1], p);
    }
  }

  lemma {:induction false} InsertContents<T>(key: T -> real, x: T, s: seq<T>)
    ensures multiset(InsertBy(key, x, s)) == multiset(s) + multiset{x}
    decreases |s|
  {
    if |s| > 0 && key(s[|s| - 1]) > key(x) {
      assert s == s[..|s| - 1] + [s[|s| - 1]];
      InsertContents(key, x, s[..|s| - 1]);
    }
  }

  lemma {:induction false} InsertAscending<T>(key: T -> real, x: T, s: seq<T>)
    requires Ascending(key, s)
    ensures Ascending(key, InsertBy(key, x, s))
    decreases |s|
  {
    if |s| > 0 && key(s[|s| - 1]) > key(x) {
      var front, last := s[..|s| - 1], s[|s| - 1];
      InsertAscending(key, x, front);
      InsertBounded(key, x, front, key(last));
    }
  }

  lemma {:induction false} SortContents<T>(key: T -> real, s: seq<T>)
    ensures multiset(SortBy(key, s)) == multiset(s)
    decreases |s|
  {
    if |s| > 0 {
      hide InsertBy;
      SortContents(key, s[..|s| - 1]);
      InsertContents(key, s[|s| - 1], SortBy(key, s[..|s| - 1]));
      assert s == s[..|s| - 1] + [s[|s| - 1]];
    }
  }

  lemma {:induction false} SortAscending<T>(key: T -> real, s: seq<T>)
    ensures Ascending(key, SortBy(key, s))
    decreases |s|
  {
    if |s| > 0 {
      hide InsertBy, Ascending;
      SortAscending(key, s[..|s| - 1]);
      InsertAscending(key, s[|s| - 1], SortBy(key, s[..|s| - 1]));
    }
  }

  lemma SortKeeps<T>(key: T -> real, s: seq<T>)
    ensures multiset(SortBy(key, s)) == multiset(s) && Ascending(key, SortBy(key, s))
    ensures |SortBy(key, s)| == |s|
  {
    hide Ascending, SortBy;
    SortContents(key, s);
    SortAscending(key, s);
    assert |multiset(SortBy(key, s))| == |SortBy(key, s)|;
  }

  lemma InsertLast<T>(key: T -> real, x: T, s: seq<T>)
    requires |s| > 0 ==> key(s[|s| - 1]) <= key(x)
    ensures InsertBy(key, x, s) == s + [x]
  {
  }

  /** Sorting does not change what is sorted already. */
  lemma {:induction false} SortSorted<T>(key: T -> real, s: seq<T>)
    requires Ascending(key, s)
    ensures SortBy(key, s) == s
    decreases |s|
  {
    hide InsertBy;
    if |s| > 0 {
      SortSorted(key, s[..|s| - 1]);
      InsertLast(key, s[|s| - 1], s[..|s| - 1]);
      assert s == s[..|s| - 1] + [s[|s| - 1]];
    }
  }

  lemma {:induction false} OccursOnce<T(!new)>(s: seq<T>, x: T)
    requires Distinct(s)
    ensures multiset(s)[x] <= 1
  {
    if |s| > 0 {
      var front, last := s[..|s| - 1], s[|s| - 1];
      assert s == front + [last];
      OccursOnce(front, x);
      assert last !in front;
    }
  }

  lemma OccursTwice<T>(s: seq<T>, i: nat, j: nat)
    requires i < j < |s| && s[i] == s[j]
    ensures multiset(s)[s[i]] >= 2
  {
    assert s == s[..j] + [s[j]] + s[j + 1..];
    assert s[i] in s[..j];
  }

  /** Sorting does not repeat what is there once. */
  lemma SortKeepsDistinct<T(!new)>(key: T -> real, s: seq<T>)
    requires Distinct(s)
    ensures Distinct(SortBy(key, s))
  {
    hide SortBy;
    SortContents(key, s);
    var r := SortBy(key, s);
    forall i, j | 0 <= i < j < |r| ensures r[i] != r[j] {
      OccursOnce(s, r[i]);
      if r[i] == r[j] { OccursTwice(r, i, j); }
    }
  }

  ghost predicate DistinctKeys<T>(key: T -> real, s: seq<T>) {
    forall i, j :: 0 <= i < j < |s| ==> key(s[i]) != key(s[j])
  }

  lemma {:induction false} InsertDistinct<T>(key: T -> real, x: T, s: seq<T>)
    requires DistinctKeys(key, s) && forall i :: 0 <= i < |s| ==> key(s[i]) != key(x)
    ensures DistinctKeys(key, InsertBy(key, x, s))
    decreases |s|
  {
    if |s| > 0 && key(s[|s| - 1]) > key(x) {
      var front, last := s[..|s| - 1], s[|s| - 1];
      InsertDistinct(key, x, front);
      InsertContents(key, x, front);
      var r := InsertBy(key, x, front);
      forall i | 0 <= i < |r| ensures key(r[i]) != key(last) {
        assert r[i] in multiset(r);
        assert r[i] in front || r[i] == x;
      }
    }
  }

  /** Elements with different keys stay different, and come out strictly ascending. */
  lemma {:induction false} SortDistinct<T>(key: T -> real, s: seq<T>)
    requires DistinctKeys(key, s)
    ensures DistinctKeys(key, SortBy(key, s))
    decreases |s|
  {
    if |s| > 0 {
      var front, last := s[..|s| - 1], s[|s| - 1];
      SortDistinct(key, front);
      SortContents(key, front);
      var r := SortBy(key, front);
      forall i | 0 <= i < |r| ensures key(r[i]) != key(last) {
        assert r[i] in multiset(r);
        assert r[i] in front;
        var j :| 0 <= j < |front| && front[j] == r[i];
        assert key(s[j]) != key(s[|s| - 1]);
      }
      InsertDistinct(key, last, r);
    }
  }

  lemma {:induction false} InsertWasDistinct<T>(key: T -> real, x: T, s: seq<T>)
    requires DistinctKeys(key, InsertBy(key, x, s))
    ensures DistinctKeys(key, s + [x])
    decreases |s|
  {
    if |s| > 0 && key(s[|s| - 1]) > key(x) {
      var front, last := s[..|s| - 1], s[|s| - 1];
      var r := InsertBy(key, x, front);
      assert InsertBy(key, x, s) == r + [last];
      forall i, j | 0 <= i < j < |r| ensures key(r[i]) != key(r[j]) {
        assert key((r + [last])[i]) != key((r + [last])[j]);
      }
      InsertWasDistinct(key, x, front);
      InsertContents(key, x, front);
      forall y | y in front || y == x ensures key(y) != key(last) {
        assert y in multiset(r);
        var i :| 0 <= i < |r| && r[i] == y;
        assert key((r + [last])[i]) != key((r + [last])[|r|]);
      }
      AppendDistinct(key, front, x, last);
      assert s == front + [last];
    }
  }

  lemma AppendDistinct<T>(key: T -> real, front: seq<T>, x: T, last: T)
    requires DistinctKeys(key, front + [x]) && forall y :: y in front || y == x ==> key(y) != key(last)
    ensures DistinctKeys(key, front + [last] + [x])
  {
    var s := front + [last] + [x];
    forall i, j | 0 <= i < j < |s| ensures key(s[i]) != key(s[j]) {
      if j < |front| {
        assert key((front + [x])[i]) != key((front + [x])[j]);
      } else if i < |front| {
        assert s[i] == front[i] && front[i] in front;
        assert key((front + [x])[i]) != key((front + [x])[|front|]);
      }
    }
  }

  lemma {:induction false} SortWasDistinct<T>(key: T -> real, s: seq<T>)
    requires DistinctKeys(key, SortBy(key, s))
    ensures DistinctKeys(key, s)
    decreases |s|
  {
    hide InsertBy;
    if |s| > 0 {
      var front, last := s[..|s| - 1], s[|s| - 1];
      var r := SortBy(key, front);
      InsertWasDistinct(key, last, r);
      FrontDistinct(key, r, last);
      SortWasDistinct(key, front);
      SortContents(key, front);
      forall i | 0 <= i < |front| ensures key(front[i]) != key(last) {
        assert front[i] in multiset(r);
      }
    }
  }

  lemma FrontDistinct<T>(key: T -> real, r: seq<T>, last: T)
    requires DistinctKeys(key, r + [last])
    ensures DistinctKeys(key, r) && forall x <- r :: key(x) != key(last)
  {
    forall i, j | 0 <= i < j < |r| ensures key(r[i]) != key(r[j]) {
      assert key((r + [last])[i]) != key((r + [last])[j]);
    }
    forall i | 0 <= i < |r| ensures key(r[i]) != key(last) {
      assert key((r + [last])[i]) != key((r + [last])[|r|]);
    }
  }

  // ---- Stability ----

  /** The elements with one key, in order. */
  function WithKey<T>(key: T -> real, s: seq<T>, k: real): seq<T> {
    if |s| == 0 then []
    else WithKey(key, s[..|s| - 1], k) + if key(s[|s| - 1]) == k then [s[|s| - 1]] else []
  }

  lemma WithKeyNext<T>(key: T -> real, s: seq<T>, x: T, k: real)
    ensures WithKey(key, s + [x], k) == WithKey(key, s, k) + if key(x) == k then [x] else []
  {
    assert (s + [x])[..|s|] == s;
  }

  lemma WithKeySwap<T>(key: T -> real, front: seq<T>, last: T, x: T, k: real)
    requires key(last) != key(x)
    ensures WithKey(key, front + [last] + [x], k) == WithKey(key, front + [x] + [last], k)
  {
    hide WithKey;
    WithKeyNext(key, front + [last], x, k);
    WithKeyNext(key, front, last, k);
    WithKeyNext(key, front + [x], last, k);
    WithKeyNext(key, front, x, k);
  }

  lemma {:induction false} InsertStable<T>(key: T -> real, x: T, s: seq<T>, k: real)
    ensures WithKey(key, InsertBy(key, x, s), k) == WithKey(key, s + [x], k)
    decreases |s|
  {
    hide WithKey;
    if |s| > 0 && key(s[|s| - 1]) > key(x) {
      var front, last := s[..|s| - 1], s[|s| - 1];
      assert s == front + [last];
      InsertStable(key, x, front, k);
      WithKeyNext(key, InsertBy(key, x, front), last, k);
      WithKeyNext(key, front + [x], last, k);
      WithKeySwap(key, front, last, x, k);
    }
  }

  /** Elements with the same key keep their order. */
  lemma {:induction false} SortStable<T>(key: T -> real, s: seq<T>, k: real)
    ensures WithKey(key, SortBy(key, s), k) == WithKey(key, s, k)
  {
    hide InsertBy;
    if |s| > 0 {
      var front, x := s[..|s| - 1], s[|s| - 1];
      SortStable(key, front, k);
      InsertStable(key, x, SortBy(key, front), k);
      WithKeyNext(key, SortBy(key, front), x, k);
    }
  }
}
