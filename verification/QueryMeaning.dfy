/**
 What a hint means, and the proof that the query built from it means the same.

 A hint is a list of alternatives; an alternative is a list of words; each word stands for its
 synonym set.  A line answers an alternative when one member of every word's set occurs in it, at
 places that do not overlap.  The filter is judged by reading the query text back: the quoted
 string is unquoted, the pattern parsed, and its matches searched for in the line.
 */
module QueryMeaning {
  import opened Base
  import opened HintText
  import opened LogQL
  import opened Queries
  import opened Regex
  import opened WordOrders

  type Table = seq<(string, seq<string>)>

  // ---- The meaning of a hint, on words ----

  predicate HasTerm(lower: string -> string, row: (string, seq<string>), token: string) {
    exists j :: 0 <= j < |row.1| && lower(row.1[j]) == token
  }

  /** The terms of the last row that has the token as its hint. */
  function HintRow(lower: string -> string, table: Table, token: string): Option<seq<string>> {
    if |table| == 0 then None
    else if lower(table[|table| - 1].0) == token then Some(table[|table| - 1].1)
    else HintRow(lower, table[..|table| - 1], token)
  }

  /** The terms of the first row that has the token among them. */
  function TermRow(lower: string -> string, table: Table, token: string): Option<seq<string>> {
    if |table| == 0 then None
    else
      var before := TermRow(lower, table[..|table| - 1], token);
      if before.Some? then before
      else if HasTerm(lower, table[|table| - 1], token) then Some(table[|table| - 1].1)
      else None
  }

  /**
   What a word means: the terms of the row it is the hint of; or else, if it has no space, those of a
   row it is a term of; or else itself.
   */
  function Meaning(lower: string -> string, table: Table, word: string): seq<string> {
    var token := lower(word);
    if HintRow(lower, table, token).Some? then HintRow(lower, table, token).value
    else if TermRow(lower, table, token).Some? && forall k :: 0 <= k < |token| ==> !IsSpace(token[k])
      then TermRow(lower, table, token).value
    else [word]
  }

  /** The words of an alternative that are hints: neither the service name nor `and`. */
  function Hints(lower: string -> string, service: string, ts: seq<string>): seq<string> {
    if |ts| == 0 then []
    else
      var t := ts[|ts| - 1];
      Hints(lower, service, ts[..|ts| - 1])
      + (if lower(t) == lower(service) || lower(t) == "and" then [] else [t])
  }

  /** The alternatives of a hint, each as the distinct meanings of its words. */
  function Asked(lower: string -> string, table: Table, service: string, query: string): seq<seq<seq<string>>> {
    Map(ts => Dedup(Map(w => Meaning(lower, table, w), Hints(lower, service, ts))), Alternatives(Words(query), []))
  }

  /** The table can be used: its rows hold terms of one line. */
  ghost predicate ValidTable(lower: string -> string, table: Table) {
    && lower("") == ""
    && forall r :: 0 <= r < |table| ==> |table[r].1| > 0 && forall t :: t in table[r].1 ==> OneLine(t)
  }

  ghost predicate OneOccurs(fold: char -> char, phrases: seq<string>, line: string, x: (nat, nat)) {
    x.0 <= x.1 <= |line| && exists p :: p in phrases && Occurs(fold, p, line, x.0, x.1)
  }

  ghost predicate OccurAt(fold: char -> char, meanings: seq<seq<string>>, line: string, at: seq<(nat, nat)>) {
    && |at| == |meanings|
    && (forall k :: 0 <= k < |at| ==> OneOccurs(fold, meanings[k], line, at[k]))
    && Disjoint(at)
  }

  /** One member of every set occurs in the line, at places that do not overlap. */
  ghost predicate AllOccur(fold: char -> char, meanings: seq<seq<string>>, line: string) {
    exists at :: OccurAt(fold, meanings, line, at)
  }

  ghost predicate Answers(fold: char -> char, asked: seq<seq<seq<string>>>, line: string) {
    exists k :: 0 <= k < |asked| && |asked[k]| > 0 && AllOccur(fold, asked[k], line)
  }

  ghost predicate AsksNothing(asked: seq<seq<seq<string>>>) {
    forall k :: 0 <= k < |asked| ==> |asked[k]| == 0
  }

  function QueryText(query: Option<string>): string {
    if query.Some? then query.value else ""
  }

  // ---- The same as the index has it ----

  function ConfigOf(lower: string -> string, table: Table): Config {
    Config(lower, SynonymIndex(lower, table))
  }

  /** The distinct synonym sets that the index gives for an alternative. */
  function Meanings(cfg: Config, service: string, ts: seq<string>): seq<seq<string>> {
    Dedup(TermSets(cfg, Hints(cfg.lower, service, ts)))
  }

  function Sought(cfg: Config, service: string, query: string): seq<seq<seq<string>>> {
    Map(ts => Meanings(cfg, service, ts), Alternatives(Words(query), []))
  }

  // ---- Words of one clause ----

  lemma MeaningsSnoc(cfg: Config, service: string, ts: seq<string>, t: string)
    ensures var ms := Meanings(cfg, service, ts);
            Meanings(cfg, service, ts + [t]) ==
            if cfg.lower(t) == cfg.lower(service) || cfg.lower(t) == "and" || Terms(cfg, t) in ms then ms
            else ms + [Terms(cfg, t)]
  {
    hide Terms;
    var hints := Hints(cfg.lower, service, ts);
    assert (ts + [t])[..|ts|] == ts;
    assert hints + [] == hints;
    var all := TermSets(cfg, hints + [t]);
    assert all[..|hints|] == TermSets(cfg, hints);
  }

  lemma KeptSnoc(cfg: Config, service: string, ts: seq<string>, t: string)
    ensures var ks := FirstOfEach(cfg, Tokens(cfg, service, ts));
            FirstOfEach(cfg, Tokens(cfg, service, ts + [t])) ==
            if t == "" || cfg.lower(t) == cfg.lower(service) || cfg.lower(t) == "and"
               || Terms(cfg, t) in TermSets(cfg, ks) then ks
            else ks + [t]
  {
    hide Terms;
    assert (ts + [t])[..|ts|] == ts;
    var tokens := Tokens(cfg, service, ts);
    assert (tokens + [t])[..|tokens|] == tokens;
    assert tokens + [] == tokens;
  }

  lemma NoHints(cfg: Config, service: string)
    ensures TermSets(cfg, FirstOfEach(cfg, Tokens(cfg, service, []))) == [] && Meanings(cfg, service, []) == []
  {
  }

  lemma {:induction false} HintsOfTokens(cfg: Config, service: string, ts: seq<string>)
    requires forall t :: t in ts ==> t != ""
    ensures TermSets(cfg, FirstOfEach(cfg, Tokens(cfg, service, ts))) == Meanings(cfg, service, ts)
    decreases |ts|
  {
    if |ts| == 0 {
      NoHints(cfg, service);
    } else {
      hide Terms, FirstOfEach, Tokens, Meanings, TermSets;
      var t := ts[|ts| - 1];
      var ts' := ts[..|ts| - 1];
      assert ts == ts' + [t];
      forall w | w in ts' ensures w != "" { assert w in ts; }
      assert t in ts;
      HintsOfTokens(cfg, service, ts');
      MeaningsSnoc(cfg, service, ts', t);
      KeptSnoc(cfg, service, ts', t);
      TermSetsSnoc(cfg, FirstOfEach(cfg, Tokens(cfg, service, ts')), t);
    }
  }

  lemma TermSetsSnoc(cfg: Config, ks: seq<string>, t: string)
    ensures TermSets(cfg, ks + [t]) == TermSets(cfg, ks) + [Terms(cfg, t)]
  {
    hide Terms;
  }

  /** The loop over pieces keeps one word for each synonym set the clause asks for. */
  lemma KeywordMeanings(cfg: Config, clause: string, service: string)
    ensures TermSets(cfg, Keywords(cfg, clause, service)) == Meanings(cfg, service, Words(clause))
  {
    hide WordsIn, SpaceEnd, WordEnd, IsSpace, Strip, FirstOfEach, Terms;
    var s := Strip(clause);
    StripWords(clause);
    StripEnds(clause);
    if s == "" {
      BlankSplit();
      assert [""][..0] == [];
      assert Tokens(cfg, service, [""]) == Tokens(cfg, service, []);
      HintsOfTokens(cfg, service, []);
    } else {
      SplitWsExact(s, 0);
      WordsAreWords(s, 0, |s|);
      HintsOfTokens(cfg, service, Words(s));
    }
  }

  lemma BlankSplit()
    ensures SplitWs("", 0) == [""] && Words("") == []
  {
  }

  // ---- The pattern of one clause ----

  ghost predicate SearchPiece(fold: char -> char, p: string, line: string) {
    exists i: nat, j: nat :: i <= j <= |line| && Hits(fold, p, line, i, j)
  }

  lemma WordPatternHits(fold: char -> char, cfg: Config, keyword: string, line: string, i: nat, j: nat)
    requires ValidConfig(cfg) && i <= j <= |line|
    ensures Piece(WordPattern(cfg, keyword))
    ensures Hits(fold, WordPattern(cfg, keyword), line, i, j) <==> OneOccurs(fold, Terms(cfg, keyword), line, (i, j))
  {
    hide Hits, Occurs, Escape, Piece, Group;
    var terms := Terms(cfg, keyword);
    var escaped := Map(t => Escape(t), terms);
    var parts := Dedup(escaped);
    forall p | p in parts
      ensures Piece(p)
      ensures Hits(fold, p, line, i, j) ==> OneOccurs(fold, terms, line, (i, j))
    {
      var k :| 0 <= k < |terms| && escaped[k] == p;
      EscapeHits(fold, terms[k], line, i, j);
    }
    if OneOccurs(fold, terms, line, (i, j)) {
      var t :| t in terms && Occurs(fold, t, line, i, j);
      EscapeHits(fold, t, line, i, j);
      var k :| 0 <= k < |terms| && terms[k] == t;
      assert escaped[k] in parts;
    }
    assert |escaped| > 0;
    if |parts| != 1 {
      GroupHits(fold, parts, line, i, j);
    }
  }

  /** The pattern of a clause finds a line exactly when the clause's synonym sets all occur in it. */
  lemma OrderPatternSearch(fold: char -> char, cfg: Config, keywords: seq<string>, line: string)
    requires ValidConfig(cfg) && |keywords| > 0 && OneLine(line)
    ensures Piece(OrderPattern(cfg, keywords))
    ensures SearchPiece(fold, OrderPattern(cfg, keywords), line) <==>
            AllOccur(fold, TermSets(cfg, keywords), line)
  {
    hide Hits, Piece, WordPattern, Terms, Group, Chain, Perms, OneOccurs;
    var ps := Map(k => WordPattern(cfg, k), keywords);
    WordPatternsHit(fold, cfg, keywords, line);
    SomeOrder(fold, ps, line);
    PlacesAreOccurrences(fold, cfg, keywords, line);
    if |ps| == 1 {
      OnlyOrder(fold, ps[0], line);
      assert ps == [ps[0]];
    } else {
      OrdersSearch(fold, ps, line);
    }
  }

  lemma WordPatternsHit(fold: char -> char, cfg: Config, keywords: seq<string>, line: string)
    requires ValidConfig(cfg)
    ensures Pieces(Map(k => WordPattern(cfg, k), keywords))
    ensures forall k, x: (nat, nat) :: 0 <= k < |keywords| ==>
              (HitsIn(fold, WordPattern(cfg, keywords[k]), line, 0, x) <==> OneOccurs(fold, Terms(cfg, keywords[k]), line, x))
  {
    hide Hits, Piece, WordPattern, Terms;
    forall k, x: (nat, nat) | 0 <= k < |keywords|
      ensures HitsIn(fold, WordPattern(cfg, keywords[k]), line, 0, x) <==> OneOccurs(fold, Terms(cfg, keywords[k]), line, x)
    {
      if x.0 <= x.1 <= |line| {
        WordPatternHits(fold, cfg, keywords[k], line, x.0, x.1);
      }
    }
    forall p | p in Map(k => WordPattern(cfg, k), keywords) ensures Piece(p) {
      var k :| 0 <= k < |keywords| && WordPattern(cfg, keywords[k]) == p;
      WordPatternHits(fold, cfg, keywords[k], line, 0, 0);
    }
  }

  lemma PlacesAreOccurrences(fold: char -> char, cfg: Config, keywords: seq<string>, line: string)
    requires ValidConfig(cfg)
    ensures var ps := Map(k => WordPattern(cfg, k), keywords);
            (exists at :: PlacedFrom(fold, ps, line, 0, at)) <==>
            AllOccur(fold, TermSets(cfg, keywords), line)
  {
    hide Hits, Piece, WordPattern, Terms, OneOccurs, HitsIn;
    WordPatternsHit(fold, cfg, keywords, line);
    var ps := Map(k => WordPattern(cfg, k), keywords);
    var ms := TermSets(cfg, keywords);
    forall at
      ensures PlacedFrom(fold, ps, line, 0, at) <==> OccurAt(fold, ms, line, at)
    {
      if |at| == |keywords| {
        forall k | 0 <= k < |at|
          ensures HitsIn(fold, ps[k], line, 0, at[k]) <==> OneOccurs(fold, ms[k], line, at[k])
        {
        }
      }
    }
  }

  lemma OnlyOrder(fold: char -> char, p: string, line: string)
    ensures SearchPiece(fold, p, line) <==>
            exists q, i: nat, j: nat :: q in Perms([p]) && i <= j <= |line| && Chain(fold, q, line, i, j)
  {
    hide Hits, Chain;
    assert Perms([p]) == [[p]] by {
      assert Without([p], 0) == [];
      var none: seq<seq<string>> := [[]];
      assert none[1..] == [] && [p] + none[0] == [p];
      assert Perms(Without([p], 0)) == none;
      assert StartingFrom([p], 1) == [];
      assert StartingFrom([p], 0) == Prepend(p, none) + [];
    }
    forall i: nat, j: nat | i <= j <= |line|
      ensures Chain(fold, [p], line, i, j) <==> Hits(fold, p, line, i, j)
    {
      ChainOfOne(fold, p, line, i, j);
    }
    if i: nat, j: nat :| i <= j <= |line| && Hits(fold, p, line, i, j) {
      assert [p] in Perms([p]) && Chain(fold, [p], line, i, j);
    }
  }

  lemma ChainOfOne(fold: char -> char, p: string, line: string, i: nat, j: nat)
    requires i <= j <= |line|
    ensures Chain(fold, [p], line, i, j) <==> Hits(fold, p, line, i, j)
  {
    hide Hits;
  }

  lemma OrdersSearch(fold: char -> char, ps: seq<string>, line: string)
    requires Pieces(ps) && |ps| > 0
    ensures var p := Group(Dedup(Map(q => Join(".*", q), Perms(ps))));
            Piece(p) &&
            (SearchPiece(fold, p, line) <==>
             exists q, i: nat, j: nat :: q in Perms(ps) && i <= j <= |line| && Chain(fold, q, line, i, j))
  {
    hide Hits, Piece, Group, Chain, Perms, Join;
    var perms := Perms(ps);
    PermsNonEmpty(ps);
    var alternatives := Dedup(Map(q => Join(".*", q), perms));
    var p := Group(alternatives);
    OrdersHit(fold, ps, line, 0, 0);
    GroupHits(fold, alternatives, line, 0, 0);
    if i: nat, j: nat :| i <= j <= |line| && Hits(fold, p, line, i, j) {
      OrdersHit(fold, ps, line, i, j);
      GroupHits(fold, alternatives, line, i, j);
    }
    if q, i: nat, j: nat :| q in perms && i <= j <= |line| && Chain(fold, q, line, i, j) {
      OrdersHit(fold, ps, line, i, j);
      GroupHits(fold, alternatives, line, i, j);
      assert Hits(fold, p, line, i, j);
    }
  }

  lemma OrdersHit(fold: char -> char, ps: seq<string>, line: string, i: nat, j: nat)
    requires Pieces(ps) && i <= j <= |line|
    ensures var alternatives := Dedup(Map(q => Join(".*", q), Perms(ps)));
            && Pieces(alternatives)
            && ((exists a :: a in alternatives && Hits(fold, a, line, i, j)) <==>
                exists q :: q in Perms(ps) && Chain(fold, q, line, i, j))
  {
    hide Hits, Piece, Chain, Perms, Join;
    var perms := Perms(ps);
    var joined := Map(q => Join(".*", q), perms);
    forall k | 0 <= k < |perms|
      ensures Piece(joined[k]) && (Hits(fold, joined[k], line, i, j) <==> Chain(fold, perms[k], line, i, j))
    {
      PermsElements(ps, perms[k]);
      JoinHits(fold, perms[k], line, i, j);
    }
    if q :| q in perms && Chain(fold, q, line, i, j) {
      var k :| 0 <= k < |perms| && perms[k] == q;
      assert joined[k] in joined;
    }
  }

  // ---- All clauses ----

  /** The patterns are those of the alternatives that ask for something; each finds what its alternative asks. */
  lemma {:induction false} ClausesSearch(fold: char -> char, cfg: Config, service: string, parts: seq<string>, line: string)
    requires ValidConfig(cfg) && OneLine(line) && ClausePatterns(cfg, service, parts).Success?
    ensures var ps := ClausePatterns(cfg, service, parts).value;
            var asked := Map(p => Meanings(cfg, service, Words(p)), parts);
            && Pieces(ps)
            && (|ps| == 0 <==> AsksNothing(asked))
            && ((exists p :: p in ps && SearchPiece(fold, p, line)) <==> Answers(fold, asked, line))
    decreases |parts|
  {
    hide Keywords, OrderPattern, Meanings, AllOccur, SearchPiece, Piece, Words;
    if |parts| > 0 {
      var n := |parts| - 1;
      ClausesSearch(fold, cfg, service, parts[..n], line);
      var before := Map(p => Meanings(cfg, service, Words(p)), parts[..n]);
      var asked := Map(p => Meanings(cfg, service, Words(p)), parts);
      assert asked == before + [Meanings(cfg, service, Words(parts[n]))];
      var ks := Keywords(cfg, parts[n], service);
      KeywordMeanings(cfg, parts[n], service);
      AnswersLast(fold, before, asked[n], line);
      if |ks| > 0 {
        OrderPatternSearch(fold, cfg, ks, line);
      }
    }
  }

  lemma AnswersLast(fold: char -> char, before: seq<seq<seq<string>>>, last: seq<seq<string>>, line: string)
    ensures Answers(fold, before + [last], line) <==>
            Answers(fold, before, line) || (|last| > 0 && AllOccur(fold, last, line))
    ensures AsksNothing(before + [last]) <==> AsksNothing(before) && |last| == 0
  {
    hide AllOccur;
    var all := before + [last];
    assert all[|before|] == last;
    forall k | 0 <= k < |before| ensures all[k] == before[k] {}
    if Answers(fold, before, line) {
      var k :| 0 <= k < |before| && |before[k]| > 0 && AllOccur(fold, before[k], line);
      assert AllOccur(fold, all[k], line);
    }
  }

  // ---- Nothing a pattern contains needs more than one line of text ----

  lemma {:induction false} EscapeOneLine(v: string)
    requires OneLine(v)
    ensures OneLine(Escape(v))
  {
    if v != "" {
      EscapeOneLine(v[1..]);
    }
  }

  lemma OneLineAppend(s: string, t: string)
    ensures OneLine(s + t) <==> OneLine(s) && OneLine(t)
  {
    forall k | 0 <= k < |s| ensures s[k] == (s + t)[k] {}
    forall k | 0 <= k < |t| ensures t[k] == (s + t)[|s| + k] {}
  }

  lemma {:induction false} JoinOneLine(sep: string, ss: seq<string>)
    requires OneLine(sep) && forall s :: s in ss ==> OneLine(s)
    ensures OneLine(Join(sep, ss))
    decreases |ss|
  {
    if |ss| > 1 {
      JoinOneLine(sep, ss[1..]);
      OneLineAppend(ss[0], sep);
      OneLineAppend(ss[0] + sep, Join(sep, ss[1..]));
    }
  }

  lemma GroupOneLine(ss: seq<string>)
    requires forall s :: s in ss ==> OneLine(s)
    ensures OneLine(Group(ss))
  {
    JoinOneLine("|", ss);
    OneLineAppend("(?:", Join("|", ss));
    OneLineAppend("(?:" + Join("|", ss), ")");
  }

  lemma OrderPatternOneLine(cfg: Config, keywords: seq<string>)
    requires ValidConfig(cfg) && forall k :: k in keywords ==> OneLine(k)
    ensures OneLine(OrderPattern(cfg, keywords))
  {
    hide Escape, Group, Perms, Join;
    var ps := Map(k => WordPattern(cfg, k), keywords);
    forall k | k in keywords ensures OneLine(WordPattern(cfg, k)) {
      var escaped := Map(t => Escape(t), Terms(cfg, k));
      forall p | p in escaped ensures OneLine(p) {
        var i :| 0 <= i < |escaped| && escaped[i] == p;
        EscapeOneLine(Terms(cfg, k)[i]);
      }
      GroupOneLine(Dedup(escaped));
    }
    forall p | p in ps ensures OneLine(p) {
      var i :| 0 <= i < |ps| && ps[i] == p;
    }
    var joined := Map(q => Join(".*", q), Perms(ps));
    forall a | a in joined ensures OneLine(a) {
      var i :| 0 <= i < |joined| && joined[i] == a;
      PermsElements(ps, Perms(ps)[i]);
      JoinOneLine(".*", Perms(ps)[i]);
    }
    GroupOneLine(Dedup(joined));
  }

  lemma {:induction false} KeptTokens(cfg: Config, service: string, ts: seq<string>)
    ensures forall t :: t in Tokens(cfg, service, ts) ==> t in ts
    ensures forall t :: t in FirstOfEach(cfg, ts) ==> t in ts
    decreases |ts|
  {
    hide Terms;
    if |ts| > 0 {
      assert ts == ts[..|ts| - 1] + [ts[|ts| - 1]];
      KeptTokens(cfg, service, ts[..|ts| - 1]);
    }
  }

  lemma KeywordsOneLine(cfg: Config, clause: string, service: string)
    ensures forall k :: k in Keywords(cfg, clause, service) ==> OneLine(k)
  {
    hide WordsIn, SpaceEnd, WordEnd, IsSpace, Strip, Tokens, FirstOfEach;
    var s := Strip(clause);
    var pieces := SplitWs(s, 0);
    StripEnds(clause);
    if s == "" {
      BlankSplit();
    } else {
      SplitWsExact(s, 0);
      WordsAreWords(s, 0, |s|);
    }
    forall w | w in pieces ensures OneLine(w) { WordOneLine(w); }
    KeptTokens(cfg, service, pieces);
    KeptTokens(cfg, service, Tokens(cfg, service, pieces));
  }

  lemma WordOneLine(w: string)
    requires w == "" || IsWord(w)
    ensures OneLine(w)
  {
    assert IsSpace(SPACES[1]) && SPACES[1] == '\n';
  }

  lemma {:induction false} ClausesOneLine(cfg: Config, service: string, parts: seq<string>)
    requires ValidConfig(cfg) && ClausePatterns(cfg, service, parts).Success?
    ensures forall p :: p in ClausePatterns(cfg, service, parts).value ==> OneLine(p)
    decreases |parts|
  {
    hide Keywords, OrderPattern;
    if |parts| > 0 {
      ClausesOneLine(cfg, service, parts[..|parts| - 1]);
      var ks := Keywords(cfg, parts[|parts| - 1], service);
      KeywordsOneLine(cfg, parts[|parts| - 1], service);
      if |ks| > 0 {
        OrderPatternOneLine(cfg, ks);
      }
    }
  }

  // ---- Reading the query back ----

  lemma PieceSearch(fold: char -> char, p: string, line: string)
    requires Piece(p)
    ensures ParseRegex(p).Some?
    ensures Search(fold, ParseRegex(p).value, line) <==> SearchPiece(fold, p, line)
  {
    hide ParseAlts, ItemsOf;
    OneBranch(p, "", []);
    LastBranch("", [], ItemsOf(p));
    assert p + "" == p;
    assert [] + [Cat(ItemsOf(p))] == [Cat(ItemsOf(p))];
    var re := Alt([Cat(ItemsOf(p))]);
    forall i: nat, j: nat | i <= j <= |line|
      ensures MatchAt(fold, re, line, i, j) <==> Hits(fold, p, line, i, j)
    {
      assert re.rs[0] == Cat(ItemsOf(p));
    }
  }

  lemma BodySearch(fold: char -> char, ps: seq<string>, line: string)
    requires |ps| > 0 && Pieces(ps)
    ensures Piece(Body(ps))
    ensures SearchPiece(fold, Body(ps), line) <==> exists p :: p in ps && SearchPiece(fold, p, line)
  {
    hide Piece, Hits, Group;
    if |ps| > 1 {
      GroupHits(fold, ps, line, 0, 0);
      forall i: nat, j: nat | i <= j <= |line|
        ensures Hits(fold, Group(ps), line, i, j) <==> exists p :: p in ps && Hits(fold, p, line, i, j)
      {
        GroupHits(fold, ps, line, i, j);
      }
    }
  }

  /** A query assembled from patterns reads back as its service and one filter that passes what a pattern finds. */
  lemma AssembledQuery(fold: char -> char, service: string, ps: seq<string>, line: string)
    requires OneLine(service) && Pieces(ps) && forall p :: p in ps ==> OneLine(p)
    ensures var q := ReadQuery(Assemble(service, ps));
            && q.Some? && q.value.service == service
            && (q.value.filter == None <==> |ps| == 0)
            && (|ps| > 0 ==> Compiles(q.value.filter.value))
            && (|ps| > 0 ==> (Passes(fold, q.value.filter.value, line) <==> exists p :: p in ps && SearchPiece(fold, p, line)))
  {
    hide Piece, Group, SearchPiece, ReadQuery, Quote, ParseRegex, Search;
    if |ps| == 0 {
      QueryRoundTrip(service, "");
    } else {
      var body := Body(ps);
      GroupOneLine(ps);
      OneLineAppend("(?i)", body);
      QueryRoundTrip(service, "(?i)" + body);
      assert Assemble(service, ps) == SELECTOR + Quote(service) + "\"}" + " " + "|~ \"" + Quote("(?i)" + body) + "\"";
      assert ("(?i)" + body)[4..] == body && ("(?i)" + body)[..4] == "(?i)";
      BodySearch(fold, ps, line);
      PieceSearch(fold, body, line);
    }
  }

  lemma SafeServiceOneLine(service: Option<string>)
    requires SafeService(service).Success?
    ensures OneLine(SafeService(service).value)
  {
    hide Strip;
  }

  // ---- The whole translation ----

  lemma AskedParts(cfg: Config, service: string, query: Option<string>)
    ensures Map(p => Meanings(cfg, service, Words(p)), OrSplit(Text(query), 0, 0)) ==
            Sought(cfg, service, QueryText(query))
  {
    hide Meanings, OrSplit, Alternatives, Words, Strip;
    var parts := OrSplit(Text(query), 0, 0);
    OrSplitMeaning(QueryText(query));
    assert Text(query) == Strip(QueryText(query)) by { BlankText(); }
    var alts := Map(p => Words(p), parts);
    assert alts == Alternatives(Words(QueryText(query)), []);
    var asked := Map(p => Meanings(cfg, service, Words(p)), parts);
    forall k | 0 <= k < |parts|
      ensures asked[k] == Map(ts => Meanings(cfg, service, ts), alts)[k]
    {
    }
  }

  lemma BlankText()
    ensures Strip("") == ""
  {
  }

  lemma TranslationByIndex(cfg: Config, fold: char -> char, query: Option<string>, service: Option<string>, line: string)
    requires ValidConfig(cfg) && OneLine(line)
    requires Translate(cfg, query, service).Success?
    ensures var q := ReadQuery(Translate(cfg, query, service).value);
            var sought := Sought(cfg, Strip(service.value), QueryText(query));
            && q.Some? && service.Some? && q.value.service == Strip(service.value)
            && (q.value.filter == None <==> AsksNothing(sought))
            && (q.value.filter.Some? ==> Compiles(q.value.filter.value))
            && (q.value.filter.Some? ==> (Passes(fold, q.value.filter.value, line) <==> Answers(fold, sought, line)))
  {
    hide ReadQuery, Sought, Meanings, ClausePatterns, OrSplit, Text, MentionsNot, Assemble, Passes, Compiles, SearchPiece, Piece;
    var svc := SafeService(service).value;
    var parts := OrSplit(Text(query), 0, 0);
    var all := ClausePatterns(cfg, svc, parts).value;
    SafeServiceOneLine(service);
    ClausesSearch(fold, cfg, svc, parts, line);
    ClausesOneLine(cfg, svc, parts);
    AskedParts(cfg, svc, query);
    AssembledQuery(fold, svc, Dedup(all), line);
  }

  /**
   Every query the translation accepts, read back as text, selects the stripped service and passes
   a line exactly when the line answers the hint; it has no filter exactly when the hint asks nothing.
   */
  lemma TranslationMeaning(lower: string -> string, table: Table, fold: char -> char, query: Option<string>, service: Option<string>, line: string)
    requires ValidTable(lower, table) && OneLine(line)
    requires Translate(ConfigOf(lower, table), query, service).Success?
    ensures var q := ReadQuery(Translate(ConfigOf(lower, table), query, service).value);
            var asked := Asked(lower, table, Strip(service.value), QueryText(query));
            && q.Some? && service.Some? && q.value.service == Strip(service.value)
            && (q.value.filter == None <==> AsksNothing(asked))
            && (q.value.filter.Some? ==> Compiles(q.value.filter.value))
            && (q.value.filter.Some? ==> (Passes(fold, q.value.filter.value, line) <==> Answers(fold, asked, line)))
  {
    hide ReadQuery, Sought, Asked, Strip, ValidConfig, ValidTable, Passes, Compiles, Answers;
    TableConfig(lower, table);
    TranslationByIndex(ConfigOf(lower, table), fold, query, service, line);
    SoughtIsAsked(lower, table, Strip(service.value), QueryText(query));
  }

  /** The first alternative that asks for too much, and for how much. */
  ghost predicate FirstTooMany(asked: seq<seq<seq<string>>>, k: nat, count: nat) {
    k < |asked| && |asked[k]| == count > 3 && forall i :: 0 <= i < k ==> |asked[i]| <= 3
  }

  /** When a hint is refused, and why: never for any other reason. */
  lemma TranslationErrors(lower: string -> string, table: Table, query: Option<string>, service: Option<string>)
    requires ValidTable(lower, table)
    ensures var r := Translate(ConfigOf(lower, table), query, service);
            var svc := if service.Some? then Strip(service.value) else "";
            var words := Words(QueryText(query));
            var badName := exists k :: 0 <= k < |svc| && !('A' <= svc[k] <= 'Z' || 'a' <= svc[k] <= 'z' || '0' <= svc[k] <= '9' || svc[k] in "_.:-");
            var hasNot := exists w :: w in words && lower(w) == "not";
            var asked := Asked(lower, table, svc, QueryText(query));
            && (r == Failure(ServiceEmpty) <==> svc == "")
            && (r == Failure(ServiceInvalid) <==> badName)
            && (r == Failure(HasNot) <==> svc != "" && !badName && hasNot)
            && (forall count :: r == Failure(TooManyWords(count)) <==>
                svc != "" && !badName && !hasNot && exists k: nat :: FirstTooMany(asked, k, count))
  {
    hide Asked, Meanings, Sought, ClausePatterns, OrSplit, Text, Assemble, Strip, Words, MentionsNot, FirstTooMany;
    var cfg := ConfigOf(lower, table);
    var svc := if service.Some? then Strip(service.value) else "";
    BlankText();
    TableConfig(lower, table);
    NotMentioned(cfg, query);
    var parts := OrSplit(Text(query), 0, 0);
    AskedParts(cfg, svc, query);
    SoughtIsAsked(lower, table, svc, QueryText(query));
    forall count ensures ClausePatterns(cfg, svc, parts) == Failure(TooManyWords(count)) <==>
      exists k: nat :: FirstTooMany(Asked(lower, table, svc, QueryText(query)), k, count)
    {
      TooMany(cfg, svc, parts, count);
    }
    OnlyTooMany(cfg, svc, parts);
  }

  lemma NotMentioned(cfg: Config, query: Option<string>)
    requires ValidConfig(cfg)
    ensures MentionsNot(cfg, Text(query)) <==> exists w :: w in Words(QueryText(query)) && cfg.lower(w) == "not"
  {
    hide WordsIn, SpaceEnd, WordEnd, IsSpace, Strip;
    BlankText();
    var q := QueryText(query);
    assert Text(query) == Strip(q);
    var s := Strip(Strip(q));
    StripWords(q);
    StripWords(Strip(q));
    StripEnds(Strip(q));
    if s == "" {
      BlankSplit();
    } else {
      SplitWsExact(s, 0);
    }
  }

  lemma {:induction false} TooMany(cfg: Config, service: string, parts: seq<string>, count: nat)
    ensures var asked := Map(p => Meanings(cfg, service, Words(p)), parts);
            ClausePatterns(cfg, service, parts) == Failure(TooManyWords(count)) <==> exists k: nat :: FirstTooMany(asked, k, count)
    decreases |parts|
  {
    hide Keywords, OrderPattern, Meanings, Words, FirstTooMany;
    if |parts| > 0 {
      var n := |parts| - 1;
      TooMany(cfg, service, parts[..n], count);
      OnlyTooMany(cfg, service, parts[..n]);
      KeywordMeanings(cfg, parts[n], service);
      var before := Map(p => Meanings(cfg, service, Words(p)), parts[..n]);
      var all := Map(p => Meanings(cfg, service, Words(p)), parts);
      assert all == before + [Meanings(cfg, service, Words(parts[n]))];
      FirstTooManyNext(before, Meanings(cfg, service, Words(parts[n])), count);
    } else {
      NoneTooMany(count);
      assert Map(p => Meanings(cfg, service, Words(p)), parts) == [];
    }
  }

  lemma NoneTooMany(count: nat)
    ensures forall k: nat :: !FirstTooMany([], k, count)
  {
  }

  lemma FirstTooManyNext(before: seq<seq<seq<string>>>, last: seq<seq<string>>, count: nat)
    ensures (exists k: nat :: FirstTooMany(before + [last], k, count)) <==>
            (exists k: nat :: FirstTooMany(before, k, count)) || ((forall i :: 0 <= i < |before| ==> |before[i]| <= 3) && |last| == count > 3)
  {
    var all := before + [last];
    forall k: nat ensures FirstTooMany(all, k, count) <==>
      FirstTooMany(before, k, count) || (k == |before| && (forall i :: 0 <= i < |before| ==> |before[i]| <= 3) && |last| == count > 3)
    {
      if k <= |before| {
        assert forall i :: 0 <= i < k ==> all[i] == before[i];
      }
    }
    assert (forall i :: 0 <= i < |before| ==> |before[i]| <= 3) && |last| == count > 3 ==> FirstTooMany(all, |before|, count);
  }

  /** No other error comes from the alternatives, and none if all ask for three things at most. */
  lemma {:induction false} OnlyTooMany(cfg: Config, service: string, parts: seq<string>)
    ensures ClausePatterns(cfg, service, parts).Failure? ==> ClausePatterns(cfg, service, parts).error.TooManyWords?
    ensures ClausePatterns(cfg, service, parts).Success? <==>
            var asked := Map(p => Meanings(cfg, service, Words(p)), parts); forall i :: 0 <= i < |asked| ==> |asked[i]| <= 3
    decreases |parts|
  {
    hide Keywords, OrderPattern, Meanings, Words;
    if |parts| > 0 {
      var n := |parts| - 1;
      OnlyTooMany(cfg, service, parts[..n]);
      KeywordMeanings(cfg, parts[n], service);
      var before := Map(p => Meanings(cfg, service, Words(p)), parts[..n]);
      var all := Map(p => Meanings(cfg, service, Words(p)), parts);
      assert all == before + [Meanings(cfg, service, Words(parts[n]))];
    }
  }

  // ---- The synonym index ----

  /** The row `(hint, terms)` is reached from the token `k`. */
  ghost predicate RowHas(lower: string -> string, row: (string, seq<string>), k: string) {
    k == lower(row.0) || (!HasSpace(k) && exists j :: 0 <= j < |row.1| && k == lower(row.1[j]))
  }

  ghost predicate IndexOf(lower: string -> string, table: seq<(string, seq<string>)>, index: map<string, seq<string>>) {
    && (forall k :: k in index ==> exists r :: 0 <= r < |table| && RowHas(lower, table[r], k) && index[k] == table[r].1)
    && (forall k, r :: 0 <= r < |table| && RowHas(lower, table[r], k) ==> k in index)
  }

  lemma {:induction false} AddedTerms(lower: string -> string, index: map<string, seq<string>>, terms: seq<string>, n: nat)
    requires n <= |terms|
    ensures var m := AddTerms(lower, index, terms, n);
            && (forall k :: k in m <==> k in index || (!HasSpace(k) && exists j :: 0 <= j < n && k == lower(terms[j])))
            && (forall k :: k in m ==> m[k] == if k in index then index[k] else terms)
  {
    hide HasSpace;
    if n > 0 {
      AddedTerms(lower, index, terms, n - 1);
    }
  }

  lemma IndexSnoc(lower: string -> string, table: seq<(string, seq<string>)>, k: string)
    requires |table| > 0
    ensures var n := |table| - 1;
            var before := SynonymIndex(lower, table[..n]);
            var m := SynonymIndex(lower, table);
            && (k in m <==> k in before || RowHas(lower, table[n], k))
            && (k in m ==> (k in before && m[k] == before[k]) || (RowHas(lower, table[n], k) && m[k] == table[n].1))
  {
    hide HasSpace;
    var n := |table| - 1;
    var (hint, terms) := table[n];
    AddedTerms(lower, SynonymIndex(lower, table[..n])[lower(hint) := terms], terms, |terms|);
  }

  lemma {:induction false} IndexedRow(lower: string -> string, table: seq<(string, seq<string>)>, k: string) returns (r: nat)
    requires k in SynonymIndex(lower, table)
    ensures r < |table| && RowHas(lower, table[r], k) && SynonymIndex(lower, table)[k] == table[r].1
    decreases |table|
  {
    assert |table| > 0;
    hide RowHas, SynonymIndex;
    var n := |table| - 1;
    IndexSnoc(lower, table, k);
    if RowHas(lower, table[n], k) && SynonymIndex(lower, table)[k] == table[n].1 {
      r := n;
    } else {
      r := IndexedRow(lower, table[..n], k);
    }
  }

  lemma {:induction false} RowIndexed(lower: string -> string, table: seq<(string, seq<string>)>, k: string, r: nat)
    requires r < |table| && RowHas(lower, table[r], k)
    ensures k in SynonymIndex(lower, table)
    decreases |table|
  {
    hide RowHas, SynonymIndex;
    IndexSnoc(lower, table, k);
    if r < |table| - 1 {
      RowIndexed(lower, table[..|table| - 1], k, r);
    }
  }

  /** The index maps exactly the hints and their space-free terms, each to the terms of a row it belongs to. */
  lemma IndexSound(lower: string -> string, table: seq<(string, seq<string>)>)
    ensures IndexOf(lower, table, SynonymIndex(lower, table))
  {
    hide RowHas, SynonymIndex;
    var m := SynonymIndex(lower, table);
    forall k | k in m
      ensures exists r :: 0 <= r < |table| && RowHas(lower, table[r], k) && m[k] == table[r].1
    {
      var r := IndexedRow(lower, table, k);
    }
    forall k, r | 0 <= r < |table| && RowHas(lower, table[r], k) ensures k in m {
      RowIndexed(lower, table, k, r);
    }
  }

  /** The index leads from every token to the terms of the row that the table gives for it. */
  lemma {:induction false} IndexedMeaning(lower: string -> string, table: Table, token: string)
    ensures var m, hinted, listed := SynonymIndex(lower, table), HintRow(lower, table, token), TermRow(lower, table, token);
            if hinted.Some? then token in m && m[token] == hinted.value
            else if listed.Some? && !HasSpace(token) then token in m && m[token] == listed.value
            else token !in m
    decreases |table|
  {
    hide HasSpace;
    if |table| > 0 {
      var n := |table| - 1;
      var (hint, terms) := table[n];
      IndexedMeaning(lower, table[..n], token);
      AddedTerms(lower, SynonymIndex(lower, table[..n])[lower(hint) := terms], terms, |terms|);
    }
  }

  /** Looking a word up in the index gives what the word means. */
  lemma TermsMean(lower: string -> string, table: Table, word: string)
    ensures Terms(ConfigOf(lower, table), word) == Meaning(lower, table, word)
  {
    hide SynonymIndex, HintRow, TermRow;
    IndexedMeaning(lower, table, lower(word));
  }

  lemma SoughtIsAsked(lower: string -> string, table: Table, service: string, query: string)
    ensures Sought(ConfigOf(lower, table), service, query) == Asked(lower, table, service, query)
  {
    hide SynonymIndex, Terms, Meaning, Hints, Alternatives, Words, Dedup;
    var cfg, alts := ConfigOf(lower, table), Alternatives(Words(query), []);
    forall k | 0 <= k < |alts|
      ensures TermSets(cfg, Hints(lower, service, alts[k])) == Map(w => Meaning(lower, table, w), Hints(lower, service, alts[k]))
    {
      SetsMean(lower, table, Hints(lower, service, alts[k]));
    }
  }

  lemma SetsMean(lower: string -> string, table: Table, words: seq<string>)
    ensures TermSets(ConfigOf(lower, table), words) == Map(w => Meaning(lower, table, w), words)
  {
    hide SynonymIndex, Terms, Meaning;
    forall i | 0 <= i < |words| ensures Terms(ConfigOf(lower, table), words[i]) == Meaning(lower, table, words[i]) {
      TermsMean(lower, table, words[i]);
    }
  }

  lemma TableConfig(lower: string -> string, table: Table)
    requires ValidTable(lower, table)
    ensures ValidConfig(ConfigOf(lower, table))
  {
    hide RowHas, SynonymIndex, OneLine;
    IndexSound(lower, table);
  }

  /**
   When no two rows share a token, a word means a phrase exactly if the row that has the word lists the
   phrase, or no row has it and the phrase is the word itself.
   */
  lemma MeaningOfPhrase(lower: string -> string, table: Table, word: string, phrase: string)
    requires forall r, r' :: 0 <= r < r' < |table| ==> !RowHas(lower, table[r], lower(word)) || !RowHas(lower, table[r'], lower(word))
    ensures phrase in Meaning(lower, table, word) <==>
            || (exists r :: 0 <= r < |table| && RowHas(lower, table[r], lower(word)) && phrase in table[r].1)
            || ((forall r :: 0 <= r < |table| ==> !RowHas(lower, table[r], lower(word))) && phrase == word)
  {
    hide SynonymIndex, RowHas, Meaning;
    TermsMean(lower, table, word);
    IndexSound(lower, table);
  }

  /** A token that belongs to one row of a table only uses that row's whole set. */
  lemma TokenUsesItsSet(lower: string -> string, table: seq<(string, seq<string>)>, keyword: string, r: nat)
    requires r < |table| && RowHas(lower, table[r], lower(keyword))
    requires forall r' :: 0 <= r' < |table| && r' != r ==> !RowHas(lower, table[r'], lower(keyword))
    ensures Terms(Config(lower, SynonymIndex(lower, table)), keyword) == table[r].1
  {
    hide RowHas;
    IndexSound(lower, table);
  }

  lemma ShippedRows()
    ensures forall r :: 0 <= r < |SYNONYMS| ==> |SYNONYMS[r].1| > 0
    ensures forall r, t :: 0 <= r < |SYNONYMS| && t in SYNONYMS[r].1 ==> OneLine(t)
  {
    forall t | t in SYNONYMS[0].1 ensures OneLine(t) {
      assert t == "timeout" || t == "timed out" || t == "deadline exceeded";
    }
    forall t | t in SYNONYMS[1].1 ensures OneLine(t) {
      assert t == "pool" || t == "connection pool" || t == "pool exhausted" || t == "pool.exhausted";
    }
    forall t | t in SYNONYMS[2].1 ensures OneLine(t) {
      assert t == "error" || t == "exception";
    }
  }

  /** The shipped table can be used for the translation. */
  lemma ShippedConfig(lower: string -> string)
    requires lower("") == ""
    ensures ValidTable(lower, SYNONYMS)
  {
    hide OneLine;
    ShippedRows();
  }
}
