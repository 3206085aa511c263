/** From a free-text hint to a log query: the functions that specify each step, and the loops that compute it. */
module Queries {
  import opened Base
  import opened HintText
  import opened LogQL
  import opened Regex
  import opened WordOrders

  datatype QueryError =
    | ServiceEmpty
    | ServiceInvalid
    | HasNot
    | TooManyWords(count: nat)

  /** The rule for lower case, and the synonym set of each indexed token. */
  datatype Config = Config(lower: string -> string, index: map<string, seq<string>>)

  ghost predicate ValidConfig(cfg: Config) {
    && cfg.lower("") == ""
    && forall k :: k in cfg.index ==> |cfg.index[k]| > 0 && forall t :: t in cfg.index[k] ==> OneLine(t)
  }

  // ---- Synonyms ----

  const SYNONYMS: seq<(string, seq<string>)> := [
    ("timeout", ["timeout", "timed out", "deadline exceeded"]),
    ("pool", ["pool", "connection pool", "pool exhausted", "pool.exhausted"]),
    ("error", ["error", "exception"])
  ]

  predicate HasSpace(s: string) {
    exists k :: 0 <= k < |s| && IsSpace(s[k])
  }

  /** The single-token terms of a hint refer to its set, unless they already refer to another. */
  function AddTerms(lower: string -> string, index: map<string, seq<string>>, terms: seq<string>, n: nat): map<string, seq<string>>
    requires n <= |terms|
  {
    if n == 0 then index
    else
      var m := AddTerms(lower, index, terms, n - 1);
      var token := lower(terms[n - 1]);
      if HasSpace(token) || token in m then m else m[token := terms]
  }

  function SynonymIndex(lower: string -> string, table: seq<(string, seq<string>)>): map<string, seq<string>> {
    if |table| == 0 then map[]
    else
      var (hint, terms) := table[|table| - 1];
      AddTerms(lower, SynonymIndex(lower, table[..|table| - 1])[lower(hint) := terms], terms, |terms|)
  }

  method IndexSynonyms(lower: string -> string, table: seq<(string, seq<string>)>) returns (index: map<string, seq<string>>)
    ensures index == SynonymIndex(lower, table)
  {
    index := map[];
    for i := 0 to |table|
      invariant index == SynonymIndex(lower, table[..i])
    {
      var (hint, terms) := table[i];
      index := index[lower(hint) := terms];
      ghost var index0 := index;
      for j := 0 to |terms|
        invariant index == AddTerms(lower, index0, terms, j)
      {
        var token := lower(terms[j]);
        if !HasSpace(token) && token !in index {
          index := index[token := terms];
        }
      }
      assert table[..i + 1][..i] == table[..i];
    }
    assert table[..|table|] == table;
  }

  function Terms(cfg: Config, keyword: string): seq<string> {
    if cfg.lower(keyword) in cfg.index then cfg.index[cfg.lower(keyword)] else [keyword]
  }

  /** The synonym set of each word. */
  function TermSets(cfg: Config, keywords: seq<string>): (r: seq<seq<string>>)
    ensures |r| == |keywords|
    ensures forall i :: 0 <= i < |r| ==> r[i] == Terms(cfg, keywords[i])
  {
    Map(k => Terms(cfg, k), keywords)
  }

  // ---- Patterns ----

  /** The pattern of one hint word: its synonyms, escaped, as alternatives. */
  function WordPattern(cfg: Config, keyword: string): string {
    var parts := Dedup(Map(t => Escape(t), Terms(cfg, keyword)));
    if |parts| == 1 then parts[0] else Group(parts)
  }

  method HintPattern(cfg: Config, keyword: string) returns (r: string)
    ensures r == WordPattern(cfg, keyword)
  {
    var parts: seq<string> := [];
    var seen: set<string> := {};
    var terms := Terms(cfg, keyword);
    ghost var all := Map(t => Escape(t), terms);
    for i := 0 to |terms|
      invariant parts == Dedup(all[..i])
      invariant forall p :: p in seen <==> p in parts
    {
      var escaped := Escape(terms[i]);
      assert all[..i + 1][..i] == all[..i];
      if escaped in seen { continue; }
      seen := seen + {escaped};
      parts := parts + [escaped];
    }
    assert all[..|terms|] == all;
    r := if |parts| == 1 then parts[0] else Group(parts);
  }

  /** Every order of the words, as alternatives in one group; one word stands for itself. */
  function OrderPattern(cfg: Config, keywords: seq<string>): string {
    var ps := Map(k => WordPattern(cfg, k), keywords);
    if |ps| == 1 then ps[0]
    else Group(Dedup(Map(q => Join(".*", q), Perms(ps))))
  }

  method PermutePattern(cfg: Config, keywords: seq<string>) returns (r: Result<string, QueryError>)
    ensures r == if |keywords| > 3 then Failure(TooManyWords(|keywords|)) else Success(OrderPattern(cfg, keywords))
  {
    if |keywords| > 3 { return Failure(TooManyWords(|keywords|)); }
    ghost var spec := Map(k => WordPattern(cfg, k), keywords);
    var patterns: seq<string> := [];
    for i := 0 to |keywords|
      invariant patterns == spec[..i]
    {
      var p := HintPattern(cfg, keywords[i]);
      patterns := patterns + [p];
    }
    assert patterns == spec;
    if |patterns| == 1 { return Success(patterns[0]); }
    var alternatives: seq<string> := [];
    var seen: set<string> := {};
    var perms := Perms(patterns);
    ghost var all := Map(q => Join(".*", q), perms);
    for i := 0 to |perms|
      invariant alternatives == Dedup(all[..i])
      invariant forall p :: p in seen <==> p in alternatives
    {
      var alternative := Join(".*", perms[i]);
      assert all[..i + 1][..i] == all[..i];
      if alternative in seen { continue; }
      seen := seen + {alternative};
      alternatives := alternatives + [alternative];
    }
    assert all[..|perms|] == all;
    r := Success(Group(alternatives));
  }

  // ---- Words of one alternative ----

  /** The non-empty pieces other than the service name. */
  function Tokens(cfg: Config, service: string, ts: seq<string>): seq<string> {
    if |ts| == 0 then []
    else
      var t := ts[|ts| - 1];
      Tokens(cfg, service, ts[..|ts| - 1]) + (if t != "" && cfg.lower(t) != cfg.lower(service) then [t] else [])
  }

  /** The tokens that are not `and`, the first of each synonym set. */
  function FirstOfEach(cfg: Config, ts: seq<string>): seq<string> {
    if |ts| == 0 then []
    else
      var ks := FirstOfEach(cfg, ts[..|ts| - 1]);
      var t := ts[|ts| - 1];
      if cfg.lower(t) == "and" || Terms(cfg, t) in TermSets(cfg, ks) then ks else ks + [t]
  }

  function Keywords(cfg: Config, clause: string, service: string): seq<string> {
    FirstOfEach(cfg, Tokens(cfg, service, SplitWs(Strip(clause), 0)))
  }

  method KeywordsFromClause(cfg: Config, clause: string, service: string) returns (r: Result<seq<string>, QueryError>)
    ensures var ks := Keywords(cfg, clause, service);
            r == if |ks| > 3 then Failure(TooManyWords(|ks|)) else Success(ks)
  {
    var tokens := Tokens(cfg, service, SplitWs(Strip(clause), 0));
    var keywords: seq<string> := [];
    var seen: set<seq<string>> := {};
    for i := 0 to |tokens|
      invariant keywords == FirstOfEach(cfg, tokens[..i])
      invariant forall ts :: ts in seen <==> ts in TermSets(cfg, keywords)
    {
      var token := tokens[i];
      assert tokens[..i + 1][..i] == tokens[..i];
      if cfg.lower(token) == "and" { continue; }
      var terms := Terms(cfg, token);
      if terms in seen { continue; }
      seen := seen + {terms};
      assert TermSets(cfg, keywords + [token]) == TermSets(cfg, keywords) + [terms];
      keywords := keywords + [token];
    }
    assert tokens[..|tokens|] == tokens;
    if |keywords| > 3 { return Failure(TooManyWords(|keywords|)); }
    r := Success(keywords);
  }

  // ---- The whole query ----

  predicate IsIdentChar(c: char) {
    'A' <= c <= 'Z' || 'a' <= c <= 'z' || '0' <= c <= '9' || c == '_' || c == '.' || c == ':' || c == '-'
  }

  function SafeService(service: Option<string>): Result<string, QueryError> {
    match service
    case None => Failure(ServiceEmpty)
    case Some(s) =>
      var value := Strip(s);
      if value == "" then Failure(ServiceEmpty)
      else if exists k :: 0 <= k < |value| && !IsIdentChar(value[k]) then Failure(ServiceInvalid)
      else Success(value)
  }

  predicate MentionsNot(cfg: Config, query: string) {
    var tokens := SplitWs(Strip(query), 0);
    exists k :: 0 <= k < |tokens| && cfg.lower(tokens[k]) == "not"
  }

  method RejectNot(cfg: Config, query: string) returns (found: bool)
    ensures found == MentionsNot(cfg, query)
  {
    hide SplitWs, Strip;
    var tokens := SplitWs(Strip(query), 0);
    for i := 0 to |tokens|
      invariant forall k :: 0 <= k < i ==> cfg.lower(tokens[k]) != "not"
    {
      if cfg.lower(tokens[i]) == "not" { return true; }
    }
    found := false;
  }

  /** The patterns of the alternatives that have hint words, or the error of the first that has too many. */
  function ClausePatterns(cfg: Config, service: string, parts: seq<string>): Result<seq<string>, QueryError> {
    if |parts| == 0 then Success([])
    else
      match ClausePatterns(cfg, service, parts[..|parts| - 1])
      case Failure(e) => Failure(e)
      case Success(ps) =>
        var ks := Keywords(cfg, parts[|parts| - 1], service);
        if |ks| > 3 then Failure(TooManyWords(|ks|))
        else if |ks| == 0 then Success(ps)
        else Success(ps + [OrderPattern(cfg, ks)])
  }

  function Body(patterns: seq<string>): string
    requires |patterns| > 0
  {
    if |patterns| == 1 then patterns[0] else Group(patterns)
  }

  function Selector(service: string): string {
    "{service=\"" + Quote(service) + "\"}"
  }

  /** One case-insensitive line filter. */
  function LineFilter(body: string): string {
    "|~ \"" + Quote("(?i)" + body) + "\""
  }

  function Assemble(service: string, patterns: seq<string>): string {
    if |patterns| == 0 then Selector(service)
    else Selector(service) + " " + LineFilter(Body(patterns))
  }

  function Text(query: Option<string>): string {
    match query
    case None => ""
    case Some(q) => Strip(q)
  }

  function Translate(cfg: Config, query: Option<string>, service: Option<string>): Result<string, QueryError> {
    match SafeService(service)
    case Failure(e) => Failure(e)
    case Success(svc) =>
      if MentionsNot(cfg, Text(query)) then Failure(HasNot)
      else
        match ClausePatterns(cfg, svc, OrSplit(Text(query), 0, 0))
        case Failure(e) => Failure(e)
        case Success(ps) => Success(Assemble(svc, Dedup(ps)))
  }

  method SplunkQueryToLogQL(cfg: Config, query: Option<string>, service: Option<string>)
    returns (r: Result<string, QueryError>)
    ensures r == Translate(cfg, query, service)
  {
    hide Keywords, OrderPattern, OrSplit, Assemble, MentionsNot, SafeService, Text;
    var safe := SafeService(service);
    if safe.Failure? { return Failure(safe.error); }
    var svc := safe.value;
    var raw := Text(query);
    var refused := RejectNot(cfg, raw);
    if refused { return Failure(HasNot); }
    var patterns: seq<string> := [];
    var seen: set<string> := {};
    var parts := OrSplit(raw, 0, 0);
    ghost var all: seq<string> := [];
    for i := 0 to |parts|
      invariant ClausePatterns(cfg, svc, parts[..i]) == Success(all)
      invariant patterns == Dedup(all)
      invariant forall p :: p in seen <==> p in patterns
    {
      var keywords := KeywordsFromClause(cfg, parts[i], svc);
      assert parts[..i + 1][..i] == parts[..i];
      if keywords.Failure? {
        FirstError(cfg, svc, parts, i + 1);
        return Failure(keywords.error);
      }
      if |keywords.value| == 0 { continue; }
      var pattern := PermutePattern(cfg, keywords.value);
      var all' := all + [pattern.value];
      assert all'[..|all|] == all;
      all := all';
      if pattern.value in seen { continue; }
      seen := seen + {pattern.value};
      patterns := patterns + [pattern.value];
    }
    assert parts[..|parts|] == parts;
    r := Success(Assemble(svc, patterns));
  }

  lemma {:induction false} FirstError(cfg: Config, svc: string, parts: seq<string>, n: nat)
    requires n <= |parts| && ClausePatterns(cfg, svc, parts[..n]).Failure?
    ensures ClausePatterns(cfg, svc, parts) == ClausePatterns(cfg, svc, parts[..n])
    decreases |parts|
  {
    if n < |parts| {
      assert parts[..|parts| - 1][..n] == parts[..n];
      FirstError(cfg, svc, parts[..|parts| - 1], n);
    } else {
      assert parts[..n] == parts;
    }
  }
}
