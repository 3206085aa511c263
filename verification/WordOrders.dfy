/**
 Every order of a hint's words, and what trying every order amounts to: the words occur at
 places that do not overlap, in whatever order.
 */
module WordOrders {
  import opened Base
  import opened Regex

  /** `itertools.permutations`: every order of `s`, by position. */
  function Perms<T>(s: seq<T>): seq<seq<T>>
    decreases |s|, 1, 0
  {
    if |s| == 0 then [[]] else StartingFrom(s, 0)
  }

  /** The orders that begin with the element at position `i` or a later one. */
  function StartingFrom<T>(s: seq<T>, i: nat): seq<seq<T>>
    requires i <= |s|
    decreases |s|, 0, |s| - i
  {
    if i == |s| then []
    else Prepend(s[i], Perms(Without(s, i))) + StartingFrom(s, i + 1)
  }

  function Prepend<T>(x: T, ss: seq<seq<T>>): (r: seq<seq<T>>)
    ensures |r| == |ss| && forall k :: 0 <= k < |ss| ==> r[k] == [x] + ss[k]
  {
    if |ss| == 0 then [] else [[x] + ss[0]] + Prepend(x, ss[1..])
  }

  lemma {:induction false} StartingFromMember<T>(s: seq<T>, i: nat, q: seq<T>)
    requires i <= |s|
    ensures q in StartingFrom(s, i) <==>
            exists m :: i <= m < |s| && |q| > 0 && q[0] == s[m] && q[1..] in Perms(Without(s, m))
    decreases |s| - i
  {
    if i < |s| {
      StartingFromMember(s, i + 1, q);
      var first := Prepend(s[i], Perms(Without(s, i)));
      if q in first {
        var k :| 0 <= k < |first| && first[k] == q;
        assert q[1..] == Perms(Without(s, i))[k];
      }
      if |q| > 0 && q[0] == s[i] && q[1..] in Perms(Without(s, i)) {
        var k :| 0 <= k < |Perms(Without(s, i))| && Perms(Without(s, i))[k] == q[1..];
        assert first[k] == [q[0]] + q[1..] == q;
      }
    }
  }

  lemma PermsMember<T>(s: seq<T>, q: seq<T>)
    requires |s| > 0
    ensures q in Perms(s) <==>
            exists m :: 0 <= m < |s| && |q| > 0 && q[0] == s[m] && q[1..] in Perms(Without(s, m))
  {
    StartingFromMember(s, 0, q);
  }

  lemma {:induction false} PermsElements<T>(s: seq<T>, q: seq<T>)
    requires q in Perms(s)
    ensures |q| == |s| && forall x :: x in q ==> x in s
    decreases |s|
  {
    if |s| > 0 {
      PermsMember(s, q);
      var m :| 0 <= m < |s| && |q| > 0 && q[0] == s[m] && q[1..] in Perms(Without(s, m));
      PermsElements(Without(s, m), q[1..]);
      forall x | x in q ensures x in s {
        if x != q[0] {
          var k :| 0 <= k < |q| && q[k] == x;
          assert q[1..][k - 1] == x;
          assert x in Without(s, m);
        }
      }
    }
  }

  lemma {:induction false} PermsNonEmpty<T>(s: seq<T>)
    ensures |Perms(s)| > 0
    decreases |s|
  {
    if |s| > 0 {
      PermsNonEmpty(Without(s, 0));
    }
  }

  // ---- Places in a line ----

  ghost predicate Apart(x: (nat, nat), y: (nat, nat)) {
    x.1 <= y.0 || y.1 <= x.0
  }

  ghost predicate Disjoint(at: seq<(nat, nat)>) {
    forall a, b :: 0 <= a < b < |at| ==> Apart(at[a], at[b])
  }

  ghost predicate HitsIn(fold: char -> char, p: string, line: string, lo: nat, x: (nat, nat)) {
    lo <= x.0 <= x.1 <= |line| && Hits(fold, p, line, x.0, x.1)
  }

  /** Piece `ps[k]` matches at place `at[k]`, at or after `lo`, and the places do not overlap. */
  ghost predicate PlacedFrom(fold: char -> char, ps: seq<string>, line: string, lo: nat, at: seq<(nat, nat)>) {
    && |at| == |ps|
    && (forall k :: 0 <= k < |ps| ==> HitsIn(fold, ps[k], line, lo, at[k]))
    && Disjoint(at)
  }

  /** The place that comes first: the one whose ends have the least sum. */
  lemma FirstPlace(at: seq<(nat, nat)>) returns (m: nat)
    requires |at| > 0 && Disjoint(at) && forall k :: 0 <= k < |at| ==> at[k].0 <= at[k].1
    ensures m < |at| && forall k :: 0 <= k < |at| && k != m ==> at[m].1 <= at[k].0
  {
    m := 0;
    var i := 1;
    while i < |at|
      invariant m < i <= |at|
      invariant forall k :: 0 <= k < i ==> at[m].0 + at[m].1 <= at[k].0 + at[k].1
    {
      if at[i].0 + at[i].1 < at[m].0 + at[m].1 { m := i; }
      i := i + 1;
    }
    forall k | 0 <= k < |at| && k != m ensures at[m].1 <= at[k].0 {
      assert Apart(at[if k < m then k else m], at[if k < m then m else k]);
    }
  }

  lemma {:induction false} OrderOfPlaces(fold: char -> char, ps: seq<string>, line: string, lo: nat, at: seq<(nat, nat)>)
    returns (q: seq<string>, i: nat, j: nat)
    requires |ps| > 0 && PlacedFrom(fold, ps, line, lo, at) && OneLine(line)
    ensures q in Perms(ps) && lo <= i <= j <= |line| && Chain(fold, q, line, i, j)
    decreases |ps|
  {
    forall k | 0 <= k < |at| ensures at[k].0 <= at[k].1 { assert HitsIn(fold, ps[k], line, lo, at[k]); }
    var m := FirstPlace(at);
    assert HitsIn(fold, ps[m], line, lo, at[m]);
    var ps', at' := Without(ps, m), Without(at, m);
    if |ps'| == 0 {
      q, i, j := [ps[m]], at[m].0, at[m].1;
      assert q[1..] == [];
    } else {
      forall k | 0 <= k < |ps'| ensures HitsIn(fold, ps'[k], line, at[m].1, at'[k]) {
        assert HitsIn(fold, ps[if k < m then k else k + 1], line, lo, at[if k < m then k else k + 1]);
      }
      forall a, b | 0 <= a < b < |at'| ensures Apart(at'[a], at'[b]) {
        assert Apart(at[if a < m then a else a + 1], at[if b < m then b else b + 1]);
      }
      var q', i', j' := OrderOfPlaces(fold, ps', line, at[m].1, at');
      q, i, j := [ps[m]] + q', at[m].0, j';
      assert q[1..] == q';
      PermsElements(ps', q');
      assert NoNewline(line, at[m].1, i');
    }
    PermsMember(ps, q);
  }

  lemma {:induction false} PlacesOfOrder(fold: char -> char, ps: seq<string>, q: seq<string>, line: string, i: nat, j: nat)
    returns (at: seq<(nat, nat)>)
    requires |ps| > 0 && q in Perms(ps) && i <= j <= |line| && Chain(fold, q, line, i, j)
    ensures PlacedFrom(fold, ps, line, i, at)
    decreases |ps|
  {
    hide Hits, Perms;
    PermsMember(ps, q);
    PermsElements(ps, q);
    var m :| 0 <= m < |ps| && q[0] == ps[m] && q[1..] in Perms(Without(ps, m));
    if |ps| == 1 {
      at := [(i, j)];
      assert HitsIn(fold, ps[0], line, i, at[0]);
    } else {
      var a, b := ChainSplit(fold, q, line, i, j);
      var at' := PlacesOfOrder(fold, Without(ps, m), q[1..], line, b, j);
      at := at'[..m] + [(i, a)] + at'[m..];
      InsertPlace(fold, ps, m, line, i, a, b, at', at);
    }
  }

  /** The place `(i, a)` of piece `m`, put before places of the others that start at `b` or later. */
  lemma InsertPlace(fold: char -> char, ps: seq<string>, m: nat, line: string, i: nat, a: nat, b: nat,
                    at': seq<(nat, nat)>, at: seq<(nat, nat)>)
    requires m < |ps| && i <= a <= b && HitsIn(fold, ps[m], line, i, (i, a))
    requires PlacedFrom(fold, Without(ps, m), line, b, at')
    requires at == at'[..m] + [(i, a)] + at'[m..]
    ensures PlacedFrom(fold, ps, line, i, at)
  {
    hide Hits;
    forall k | 0 <= k < |ps| ensures HitsIn(fold, ps[k], line, i, at[k]) {
      if k != m {
        var k' := if k < m then k else k - 1;
        assert HitsIn(fold, Without(ps, m)[k'], line, b, at'[k']);
      }
    }
    forall x, y | 0 <= x < y < |at| ensures Apart(at[x], at[y]) {
      var x', y' := if x < m then x else x - 1, if y < m then y else y - 1;
      if x == m {
        assert HitsIn(fold, Without(ps, m)[y'], line, b, at'[y']);
      } else if y == m {
        assert HitsIn(fold, Without(ps, m)[x'], line, b, at'[x']);
      } else {
        assert Apart(at'[x'], at'[y']);
      }
    }
  }

  lemma ChainSplit(fold: char -> char, ps: seq<string>, line: string, i: nat, j: nat) returns (a: nat, b: nat)
    requires i <= j <= |line| && |ps| > 1 && Chain(fold, ps, line, i, j)
    ensures i <= a <= b <= j && Hits(fold, ps[0], line, i, a) && NoNewline(line, a, b) && Chain(fold, ps[1..], line, b, j)
  {
    a, b :| i <= a <= b <= j && Hits(fold, ps[0], line, i, a) && NoNewline(line, a, b) && Chain(fold, ps[1..], line, b, j);
  }

  /** On a line without newline, some order of the pieces chains iff they have disjoint places. */
  lemma SomeOrder(fold: char -> char, ps: seq<string>, line: string)
    requires |ps| > 0 && OneLine(line)
    ensures (exists q, i: nat, j: nat :: q in Perms(ps) && i <= j <= |line| && Chain(fold, q, line, i, j))
       <==> exists at :: PlacedFrom(fold, ps, line, 0, at)
  {
    hide Hits, Perms, Chain;
    if at :| PlacedFrom(fold, ps, line, 0, at) {
      var q, i, j := OrderOfPlaces(fold, ps, line, 0, at);
    }
    if q, i: nat, j: nat :| q in Perms(ps) && i <= j <= |line| && Chain(fold, q, line, i, j) {
      var at := PlacesOfOrder(fold, ps, q, line, i, j);
      forall k | 0 <= k < |ps| ensures HitsIn(fold, ps[k], line, 0, at[k]) {
        assert HitsIn(fold, ps[k], line, i, at[k]);
      }
      assert PlacedFrom(fold, ps, line, 0, at);
    }
  }
}
