/**
 The fragment of RE2 that a generated filter uses: literals, escapes, `.`, `*`, `|` and
 non-capturing groups.  `ParseRegex` reads a pattern the way the engine does; `MatchAt` says
 which stretch of a line a pattern matches, ignoring case as `(?i)` asks (two characters are
 the same when `fold` sends them to the same character).
 */
module Regex {
  import opened Base

  datatype Re =
    | Lit(c: char)
    | Any
    | Star(r: Re)
    | Cat(rs: seq<Re>)
    | Alt(rs: seq<Re>)

  /** A character that the engine does not take for itself. */
  predicate Reserved(c: char) {
    || c == '.' || c == '^' || c == '$' || c == '*' || c == '+' || c == '?'
    || c == '{' || c == '}' || c == '[' || c == ']' || c == '\\'
    || c == '|' || c == '(' || c == ')'
  }

  /**
   Reads alternatives up to the end of the pattern or an unmatched `)`.  `done` holds the
   alternatives already read, `cur` the items of the one being read.  A `*` binds to the last
   item; an escape of anything but a metacharacter, and every operator outside the fragment,
   is an error.
   */
  function ParseAlts(s: string, done: seq<Re>, cur: seq<Re>): (r: Option<(seq<Re>, string)>)
    ensures r.Some? ==> |r.value.1| <= |s|
    decreases |s|
  {
    if s == "" || s[0] == ')' then Some((done + [Cat(cur)], s))
    else if s[0] == '|' then ParseAlts(s[1..], done + [Cat(cur)], [])
    else if s[0] == '*' then
      if cur == [] then None
      else ParseAlts(s[1..], done, cur[..|cur| - 1] + [Star(cur[|cur| - 1])])
    else if s[0] == '(' then
      if |s| < 3 || s[1] != '?' || s[2] != ':' then None
      else
        match ParseAlts(s[3..], [], [])
        case None => None
        case Some((alts, rest)) =>
          if rest == "" then None else ParseAlts(rest[1..], done, cur + [Alt(alts)])
    else if s[0] == '\\' then
      if |s| < 2 || !Reserved(s[1]) then None
      else ParseAlts(s[2..], done, cur + [Lit(s[1])])
    else if s[0] == '.' then ParseAlts(s[1..], done, cur + [Any])
    else if Reserved(s[0]) then None
    else ParseAlts(s[1..], done, cur + [Lit(s[0])])
  }

  function ParseRegex(s: string): Option<Re> {
    match ParseAlts(s, [], [])
    case None => None
    case Some((alts, rest)) => if rest == "" then Some(Alt(alts)) else None
  }

  /** `r` matches exactly the characters `i` up to `j` of `line`. */
  ghost predicate MatchAt(fold: char -> char, r: Re, line: string, i: nat, j: nat)
    requires i <= j <= |line|
    decreases r, j - i
  {
    match r
    case Lit(c) => j == i + 1 && fold(line[i]) == fold(c)
    case Any => j == i + 1 && line[i] != '\n'
    case Star(q) =>
      i == j || exists m :: i < m <= j && MatchAt(fold, q, line, i, m) && MatchAt(fold, r, line, m, j)
    case Cat(rs) => MatchCat(fold, rs, line, i, j)
    case Alt(rs) => exists k :: 0 <= k < |rs| && MatchAt(fold, rs[k], line, i, j)
  }

  ghost predicate MatchCat(fold: char -> char, rs: seq<Re>, line: string, i: nat, j: nat)
    requires i <= j <= |line|
    decreases rs, j - i
  {
    if |rs| == 0 then i == j
    else exists m :: i <= m <= j && MatchAt(fold, rs[0], line, i, m) && MatchCat(fold, rs[1..], line, m, j)
  }

  /** An unanchored search, as the line filter operator performs it. */
  ghost predicate Search(fold: char -> char, r: Re, line: string) {
    exists i: nat, j: nat :: i <= j <= |line| && MatchAt(fold, r, line, i, j)
  }

  // ---- Reading a pattern piece by piece ----

  /** Wherever `s` stands in a pattern, the parser reads it as the items `items`. */
  ghost predicate Reads(s: string, items: seq<Re>) {
    forall rest: string, done: seq<Re>, cur: seq<Re> ::
      ParseAlts(s + rest, done, cur) == ParseAlts(rest, done, cur + items)
  }

  /** The items a one-alternative pattern consists of. */
  ghost function ItemsOf(p: string): seq<Re> {
    match ParseAlts(p, [], [])
    case Some((alts, rest)) => if |alts| == 1 && alts[0].Cat? then alts[0].rs else []
    case None => []
  }

  /** `p` reads as the same items in every context. */
  ghost predicate Piece(p: string) {
    Reads(p, ItemsOf(p))
  }

  /** The piece `p` matches the characters `i` up to `j` of `line`. */
  ghost predicate Hits(fold: char -> char, p: string, line: string, i: nat, j: nat)
    requires i <= j <= |line|
  {
    MatchCat(fold, ItemsOf(p), line, i, j)
  }

  lemma ReadsItems(s: string, items: seq<Re>)
    requires Reads(s, items)
    ensures Piece(s) && ItemsOf(s) == items
  {
    assert s + "" == s && [] + items == items;
    assert ParseAlts(s + "", [], []) == ParseAlts("", [], [] + items);
  }

  lemma ReadsAppend(s: string, a: seq<Re>, t: string, b: seq<Re>)
    requires Reads(s, a) && Reads(t, b)
    ensures Reads(s + t, a + b)
  {
    forall rest: string, done: seq<Re>, cur: seq<Re>
      ensures ParseAlts((s + t) + rest, done, cur) == ParseAlts(rest, done, cur + (a + b))
    {
      assert (s + t) + rest == s + (t + rest);
      assert cur + (a + b) == (cur + a) + b;
    }
  }

  lemma ReadsNothing()
    ensures Reads("", [])
  {
    forall rest: string, done: seq<Re>, cur: seq<Re>
      ensures ParseAlts("" + rest, done, cur) == ParseAlts(rest, done, cur + [])
    {
      assert "" + rest == rest && cur + [] == cur;
    }
  }

  lemma ReadsDotStar()
    ensures Reads(".*", [Star(Any)])
  {
    forall rest: string, done: seq<Re>, cur: seq<Re>
      ensures ParseAlts(".*" + rest, done, cur) == ParseAlts(rest, done, cur + [Star(Any)])
    {
      var s := ".*" + rest;
      assert s[1..] == "*" + rest && s[1..][1..] == rest;
      var c := cur + [Any];
      assert c[..|c| - 1] == cur;
    }
  }

  // ---- What the pieces match ----

  lemma CatSplit(fold: char -> char, rs: seq<Re>, line: string, i: nat, j: nat) returns (m: nat)
    requires i <= j <= |line| && |rs| > 0 && MatchCat(fold, rs, line, i, j)
    ensures i <= m <= j && MatchAt(fold, rs[0], line, i, m) && MatchCat(fold, rs[1..], line, m, j)
  {
    m :| i <= m <= j && MatchAt(fold, rs[0], line, i, m) && MatchCat(fold, rs[1..], line, m, j);
  }

  lemma StarSplit(fold: char -> char, q: Re, line: string, i: nat, j: nat) returns (m: nat)
    requires i < j <= |line| && MatchAt(fold, Star(q), line, i, j)
    ensures i < m <= j && MatchAt(fold, q, line, i, m) && MatchAt(fold, Star(q), line, m, j)
  {
    m :| i < m <= j && MatchAt(fold, q, line, i, m) && MatchAt(fold, Star(q), line, m, j);
  }

  lemma {:induction false} MatchCatAppend(fold: char -> char, a: seq<Re>, b: seq<Re>, line: string, i: nat, j: nat)
    requires i <= j <= |line|
    ensures MatchCat(fold, a + b, line, i, j) <==>
            exists m :: i <= m <= j && MatchCat(fold, a, line, i, m) && MatchCat(fold, b, line, m, j)
    decreases |a|
  {
    if a == [] {
      assert a + b == b;
      assert MatchCat(fold, a, line, i, i);
    } else {
      assert (a + b)[0] == a[0] && (a + b)[1..] == a[1..] + b;
      forall n | i <= n <= j
        ensures MatchCat(fold, a[1..] + b, line, n, j) <==>
                exists m :: n <= m <= j && MatchCat(fold, a[1..], line, n, m) && MatchCat(fold, b, line, m, j)
      {
        MatchCatAppend(fold, a[1..], b, line, n, j);
      }
      if MatchCat(fold, a + b, line, i, j) {
        var n := CatSplit(fold, a + b, line, i, j);
        var m :| n <= m <= j && MatchCat(fold, a[1..], line, n, m) && MatchCat(fold, b, line, m, j);
        assert MatchCat(fold, a, line, i, m);
      }
      if m :| i <= m <= j && MatchCat(fold, a, line, i, m) && MatchCat(fold, b, line, m, j) {
        var n := CatSplit(fold, a, line, i, m);
        assert MatchCat(fold, a[1..] + b, line, n, j);
      }
    }
  }

  lemma MatchOne(fold: char -> char, r: Re, line: string, i: nat, j: nat)
    requires i <= j <= |line|
    ensures MatchCat(fold, [r], line, i, j) <==> MatchAt(fold, r, line, i, j)
  {
    assert [r][1..] == [];
    if MatchAt(fold, r, line, i, j) {
      assert MatchCat(fold, [r][1..], line, j, j);
    }
  }

  ghost predicate NoNewline(line: string, i: nat, j: nat)
    requires i <= j <= |line|
  {
    forall k :: i <= k < j ==> line[k] != '\n'
  }

  predicate OneLine(s: string) {
    forall k :: 0 <= k < |s| ==> s[k] != '\n'
  }

  /** `.*` spans any stretch without a newline, and nothing else. */
  lemma {:induction false} DotStarSpans(fold: char -> char, line: string, i: nat, j: nat)
    requires i <= j <= |line|
    ensures MatchAt(fold, Star(Any), line, i, j) <==> NoNewline(line, i, j)
    decreases j - i
  {
    if i < j {
      DotStarSpans(fold, line, i + 1, j);
      if MatchAt(fold, Star(Any), line, i, j) {
        var m := StarSplit(fold, Any, line, i, j);
        assert m == i + 1;
      }
      if NoNewline(line, i, j) {
        assert MatchAt(fold, Any, line, i, i + 1);
      }
    }
  }

  // ---- Literal text ----

  /** The characters that are escaped. */
  predicate IsMeta(c: char) {
    || c == '.' || c == '^' || c == '$' || c == '*' || c == '+' || c == '?'
    || c == '{' || c == '}' || c == '[' || c == ']' || c == '\\'
    || c == '|' || c == '(' || c == ')'
  }

  /** Escapes every metacharacter so the text matches literally. */
  function Escape(v: string): string {
    if v == "" then ""
    else (if IsMeta(v[0]) then ['\\', v[0]] else [v[0]]) + Escape(v[1..])
  }

  /** The text `v` stands at the characters `i` up to `j` of `line`, ignoring case. */
  ghost predicate Occurs(fold: char -> char, v: string, line: string, i: nat, j: nat)
    requires i <= j <= |line|
  {
    j - i == |v| && forall k :: 0 <= k < |v| ==> fold(line[i + k]) == fold(v[k])
  }

  lemma {:induction false} EscapeReads(v: string)
    ensures Reads(Escape(v), Map(c => Lit(c), v))
  {
    if v == "" {
      ReadsNothing();
      assert Map(c => Lit(c), v) == [];
    } else {
      EscapeReads(v[1..]);
      var head := if IsMeta(v[0]) then ['\\', v[0]] else [v[0]];
      forall rest: string, done: seq<Re>, cur: seq<Re>
        ensures ParseAlts(head + rest, done, cur) == ParseAlts(rest, done, cur + [Lit(v[0])])
      {
        var s := head + rest;
        if IsMeta(v[0]) {
          assert s[2..] == rest;
        } else {
          assert s[1..] == rest;
        }
      }
      ReadsAppend(head, [Lit(v[0])], Escape(v[1..]), Map(c => Lit(c), v[1..]));
      assert Map(c => Lit(c), v) == [Lit(v[0])] + Map(c => Lit(c), v[1..]);
    }
  }

  lemma {:induction false} LitsMatch(fold: char -> char, v: string, line: string, i: nat, j: nat)
    requires i <= j <= |line|
    ensures MatchCat(fold, Map(c => Lit(c), v), line, i, j) <==> Occurs(fold, v, line, i, j)
    decreases |v|
  {
    var lits := Map(c => Lit(c), v);
    if v != "" {
      assert lits[1..] == Map(c => Lit(c), v[1..]);
      if i < j {
        LitsMatch(fold, v[1..], line, i + 1, j);
        if Occurs(fold, v, line, i, j) {
          assert fold(line[i + 0]) == fold(v[0]);
          forall k | 0 <= k < |v[1..]| ensures fold(line[i + 1 + k]) == fold(v[1..][k]) {
            assert fold(line[i + (k + 1)]) == fold(v[k + 1]);
          }
          assert MatchAt(fold, lits[0], line, i, i + 1);
        }
        if MatchCat(fold, lits, line, i, j) {
          var m := CatSplit(fold, lits, line, i, j);
          assert m == i + 1;
          forall k | 0 <= k < |v| ensures fold(line[i + k]) == fold(v[k]) {
            if k > 0 {
              assert fold(line[i + 1 + (k - 1)]) == fold(v[1..][k - 1]);
            }
          }
        }
      }
    }
  }

  /** Escaped text, parsed back, matches that text and nothing else: no metacharacter acts. */
  lemma EscapeHits(fold: char -> char, v: string, line: string, i: nat, j: nat)
    requires i <= j <= |line|
    ensures Piece(Escape(v))
    ensures Hits(fold, Escape(v), line, i, j) <==> Occurs(fold, v, line, i, j)
  {
    EscapeReads(v);
    ReadsItems(Escape(v), Map(c => Lit(c), v));
    LitsMatch(fold, v, line, i, j);
  }

  // ---- Groups of alternatives ----

  function Group(ps: seq<string>): string {
    "(?:" + Join("|", ps) + ")"
  }

  ghost function Branches(ps: seq<string>): (r: seq<Re>)
    ensures |r| == |ps|
    ensures forall k :: 0 <= k < |ps| ==> r[k] == Cat(ItemsOf(ps[k]))
  {
    if |ps| == 0 then [] else [Cat(ItemsOf(ps[0]))] + Branches(ps[1..])
  }

  ghost predicate Pieces(ps: seq<string>) {
    forall p :: p in ps ==> Piece(p)
  }

  lemma OneBranch(p: string, rest: string, done: seq<Re>)
    requires Piece(p)
    ensures ParseAlts(p + rest, done, []) == ParseAlts(rest, done, ItemsOf(p))
  {
    hide ParseAlts, ItemsOf;
    assert [] + ItemsOf(p) == ItemsOf(p);
    assert ParseAlts(p + rest, done, []) == ParseAlts(rest, done, [] + ItemsOf(p));
  }

  lemma NextBranch(next: string, done: seq<Re>, cur: seq<Re>)
    ensures ParseAlts("|" + next, done, cur) == ParseAlts(next, done + [Cat(cur)], [])
  {
    assert ("|" + next)[1..] == next;
  }

  lemma LastBranch(rest: string, done: seq<Re>, cur: seq<Re>)
    requires rest == "" || rest[0] == ')'
    ensures ParseAlts(rest, done, cur) == Some((done + [Cat(cur)], rest))
  {
  }

  lemma {:induction false} BranchesRead(ps: seq<string>, rest: string, done: seq<Re>)
    requires ps != [] && Pieces(ps)
    requires rest == "" || rest[0] == ')'
    ensures ParseAlts(Join("|", ps) + rest, done, []) == Some((done + Branches(ps), rest))
    decreases |ps|
  {
    hide ParseAlts, ItemsOf, Piece, Branches, Join;
    var p := ps[0];
    assert Piece(p);
    FirstBranch(ps, rest, done);
    if |ps| == 1 {
      OneBranch(p, rest, done);
      LastBranch(rest, done, ItemsOf(p));
    } else {
      var next := Join("|", ps[1..]) + rest;
      OneBranch(p, "|" + next, done);
      NextBranch(next, done, ItemsOf(p));
      BranchesRead(ps[1..], rest, done + [Cat(ItemsOf(p))]);
    }
  }

  lemma FirstBranch(ps: seq<string>, rest: string, done: seq<Re>)
    requires ps != []
    ensures |ps| == 1 ==> Join("|", ps) == ps[0] && Branches(ps) == [Cat(ItemsOf(ps[0]))]
    ensures |ps| > 1 ==> Join("|", ps) + rest == ps[0] + ("|" + (Join("|", ps[1..]) + rest))
    ensures |ps| > 1 ==> done + Branches(ps) == (done + [Cat(ItemsOf(ps[0]))]) + Branches(ps[1..])
  {
    hide *;
    JoinFirst(ps);
    BranchFirst(ps);
    if |ps| > 1 {
      Regrouped(ps[0] + "|", Join("|", ps[1..]), rest);
      Regrouped(ps[0], "|", Join("|", ps[1..]) + rest);
      Regrouped(done, [Cat(ItemsOf(ps[0]))], Branches(ps[1..]));
    }
  }

  lemma JoinFirst(ps: seq<string>)
    requires ps != []
    ensures |ps| == 1 ==> Join("|", ps) == ps[0]
    ensures |ps| > 1 ==> Join("|", ps) == ps[0] + "|" + Join("|", ps[1..])
  {
  }

  lemma BranchFirst(ps: seq<string>)
    requires ps != []
    ensures Branches(ps) == [Cat(ItemsOf(ps[0]))] + Branches(ps[1..])
    ensures |ps| == 1 ==> Branches(ps) == [Cat(ItemsOf(ps[0]))]
  {
    hide ItemsOf;
    if |ps| == 1 {
      assert Branches(ps[1..]) == [];
    }
  }

  lemma Regrouped<T>(a: seq<T>, b: seq<T>, c: seq<T>)
    ensures (a + b) + c == a + (b + c)
  {
  }

  lemma GroupReads(ps: seq<string>)
    requires ps != [] && Pieces(ps)
    ensures Reads(Group(ps), [Alt(Branches(ps))])
  {
    hide Reserved, ItemsOf, Piece, Branches;
    forall rest: string, done: seq<Re>, cur: seq<Re>
      ensures ParseAlts(Group(ps) + rest, done, cur) == ParseAlts(rest, done, cur + [Alt(Branches(ps))])
    {
      var s := Group(ps) + rest;
      assert s[3..] == Join("|", ps) + (")" + rest);
      BranchesRead(ps, ")" + rest, []);
      assert [] + Branches(ps) == Branches(ps);
      assert (")" + rest)[1..] == rest;
    }
  }

  /** A group is one piece, and matches what any of its alternatives matches. */
  lemma GroupHits(fold: char -> char, ps: seq<string>, line: string, i: nat, j: nat)
    requires i <= j <= |line|
    requires ps != [] && Pieces(ps)
    ensures Piece(Group(ps))
    ensures Hits(fold, Group(ps), line, i, j) <==> exists p :: p in ps && Hits(fold, p, line, i, j)
  {
    hide ParseAlts, ItemsOf, Piece;
    var branches := Branches(ps);
    GroupReads(ps);
    ReadsItems(Group(ps), [Alt(branches)]);
    MatchOne(fold, Alt(branches), line, i, j);
    forall k | 0 <= k < |ps|
      ensures MatchAt(fold, branches[k], line, i, j) <==> Hits(fold, ps[k], line, i, j)
    {
    }
    if p :| p in ps && Hits(fold, p, line, i, j) {
      var k :| 0 <= k < |ps| && ps[k] == p;
      assert MatchAt(fold, branches[k], line, i, j);
    }
  }

  // ---- Words joined by `.*` ----

  /** The pieces `ps` follow one another from `i` to `j`, with newline-free gaps between them. */
  ghost predicate Chain(fold: char -> char, ps: seq<string>, line: string, i: nat, j: nat)
    requires i <= j <= |line|
    decreases |ps|
  {
    if |ps| == 0 then i == j
    else if |ps| == 1 then Hits(fold, ps[0], line, i, j)
    else exists a, b ::
           i <= a <= b <= j && Hits(fold, ps[0], line, i, a) && NoNewline(line, a, b)
           && Chain(fold, ps[1..], line, b, j)
  }

  lemma {:induction false} JoinReads(ps: seq<string>)
    requires Pieces(ps)
    ensures Piece(Join(".*", ps))
    ensures ps == [] ==> ItemsOf(Join(".*", ps)) == []
    ensures |ps| > 1 ==> ItemsOf(Join(".*", ps)) == ItemsOf(ps[0]) + ([Star(Any)] + ItemsOf(Join(".*", ps[1..])))
    decreases |ps|
  {
    if ps == [] {
      ReadsNothing();
      ReadsItems("", []);
    } else if |ps| > 1 {
      var tail := Join(".*", ps[1..]);
      assert Piece(ps[0]);
      JoinReads(ps[1..]);
      ReadsDotStar();
      ReadsAppend(".*", [Star(Any)], tail, ItemsOf(tail));
      ReadsAppend(ps[0], ItemsOf(ps[0]), ".*" + tail, [Star(Any)] + ItemsOf(tail));
      assert Join(".*", ps) == ps[0] + (".*" + tail);
      ReadsItems(Join(".*", ps), ItemsOf(ps[0]) + ([Star(Any)] + ItemsOf(tail)));
    }
  }

  lemma GapThen(fold: char -> char, items: seq<Re>, line: string, a: nat, j: nat)
    requires a <= j <= |line|
    ensures MatchCat(fold, [Star(Any)] + items, line, a, j) <==>
            exists b :: a <= b <= j && NoNewline(line, a, b) && MatchCat(fold, items, line, b, j)
  {
    MatchCatAppend(fold, [Star(Any)], items, line, a, j);
    forall b | a <= b <= j
      ensures MatchCat(fold, [Star(Any)], line, a, b) <==> NoNewline(line, a, b)
    {
      MatchOne(fold, Star(Any), line, a, b);
      DotStarSpans(fold, line, a, b);
    }
  }

  lemma {:induction false} JoinHits(fold: char -> char, ps: seq<string>, line: string, i: nat, j: nat)
    requires i <= j <= |line|
    requires Pieces(ps)
    ensures Piece(Join(".*", ps))
    ensures Hits(fold, Join(".*", ps), line, i, j) <==> Chain(fold, ps, line, i, j)
    decreases |ps|
  {
    JoinReads(ps);
    if |ps| > 1 {
      var tail := Join(".*", ps[1..]);
      MatchCatAppend(fold, ItemsOf(ps[0]), [Star(Any)] + ItemsOf(tail), line, i, j);
      forall b | i <= b <= j
        ensures MatchCat(fold, ItemsOf(tail), line, b, j) <==> Chain(fold, ps[1..], line, b, j)
      {
        JoinHits(fold, ps[1..], line, b, j);
      }
      if Chain(fold, ps, line, i, j) {
        var a, b :| i <= a <= b <= j && Hits(fold, ps[0], line, i, a) && NoNewline(line, a, b)
                    && Chain(fold, ps[1..], line, b, j);
        GapThen(fold, ItemsOf(tail), line, a, j);
        assert MatchCat(fold, [Star(Any)] + ItemsOf(tail), line, a, j);
      }
      if Hits(fold, Join(".*", ps), line, i, j) {
        var a :| i <= a <= j && MatchCat(fold, ItemsOf(ps[0]), line, i, a)
                 && MatchCat(fold, [Star(Any)] + ItemsOf(tail), line, a, j);
        GapThen(fold, ItemsOf(tail), line, a, j);
        var b :| a <= b <= j && NoNewline(line, a, b) && MatchCat(fold, ItemsOf(tail), line, b, j);
        assert Chain(fold, ps[1..], line, b, j);
        assert Hits(fold, ps[0], line, i, a);
      }
    }
  }
}
