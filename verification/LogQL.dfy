/** The text of a log query: a stream selector, optionally followed by one line filter. */
module LogQL {
  import opened Base
  import opened Regex

  /** `s` with every `c` replaced by `repl`. */
  function Replace(s: string, c: char, repl: string): string {
    if |s| == 0 then ""
    else (if s[0] == c then repl else [s[0]]) + Replace(s[1..], c, repl)
  }

  /** The text of `v` inside a double-quoted string. */
  function Quote(v: string): string {
    Replace(Replace(v, '\\', "\\\\"), '"', "\\\"")
  }

  /** Reads a double-quoted string whose opening quote has been read: its value, and what follows. */
  function ReadQuoted(s: string): Option<(string, string)> {
    if |s| == 0 || s[0] == '\n' then None
    else if s[0] == '"' then Some(("", s[1..]))
    else if s[0] == '\\' then
      if |s| < 2 || (s[1] != '\\' && s[1] != '"') then None
      else
        match ReadQuoted(s[2..])
        case None => None
        case Some((v, rest)) => Some(([s[1]] + v, rest))
    else
      match ReadQuoted(s[1..])
      case None => None
      case Some((v, rest)) => Some(([s[0]] + v, rest))
  }

  datatype Query = Query(service: string, filter: Option<string>)

  const SELECTOR := "{service=\""
  const FILTER := "} |~ \""

  /** Reads a query: the selected service and the pattern of its line filter. */
  function ReadQuery(q: string): Option<Query> {
    if !(SELECTOR <= q) then None
    else
      match ReadQuoted(q[|SELECTOR|..])
      case None => None
      case Some((service, rest)) =>
        if rest == "}" then Some(Query(service, None))
        else if !(FILTER <= rest) then None
        else
          match ReadQuoted(rest[|FILTER|..])
          case None => None
          case Some((pattern, end)) => if end == "" then Some(Query(service, Some(pattern))) else None
  }

  /** The filter `pattern` is well formed and asks for matching without regard to case. */
  predicate Compiles(pattern: string) {
    |pattern| >= 4 && pattern[..4] == "(?i)" && ParseRegex(pattern[4..]).Some?
  }

  ghost predicate Passes(fold: char -> char, pattern: string, line: string) {
    Compiles(pattern) && Search(fold, ParseRegex(pattern[4..]).value, line)
  }

  // ---- Quoting is undone by reading ----

  lemma {:induction false} ReplaceAppend(s: string, t: string, c: char, repl: string)
    ensures Replace(s + t, c, repl) == Replace(s, c, repl) + Replace(t, c, repl)
  {
    if |s| == 0 {
      assert s + t == t;
    } else {
      assert (s + t)[1..] == s[1..] + t;
      ReplaceAppend(s[1..], t, c, repl);
    }
  }

  function QuoteChar(c: char): string {
    if c == '\\' then "\\\\" else if c == '"' then "\\\"" else [c]
  }

  lemma QuoteStep(v: string)
    requires v != ""
    ensures Quote(v) == QuoteChar(v[0]) + Quote(v[1..])
  {
    var head := Replace([v[0]], '\\', "\\\\");
    ReplaceOne(v[0], '\\', "\\\\");
    assert v == [v[0]] + v[1..];
    ReplaceAppend([v[0]], v[1..], '\\', "\\\\");
    ReplaceAppend(head, Replace(v[1..], '\\', "\\\\"), '"', "\\\"");
    if v[0] == '\\' {
      assert head == ['\\'] + ['\\'];
      ReplaceAppend(['\\'], ['\\'], '"', "\\\"");
      ReplaceOne('\\', '"', "\\\"");
    } else {
      ReplaceOne(v[0], '"', "\\\"");
    }
  }

  lemma ReplaceOne(c: char, d: char, repl: string)
    ensures Replace([c], d, repl) == if c == d then repl else [c]
  {
    assert [c][1..] == "";
  }

  lemma {:induction false} QuoteRoundTrip(v: string, rest: string)
    requires OneLine(v)
    ensures ReadQuoted(Quote(v) + "\"" + rest) == Some((v, rest))
    decreases |v|
  {
    hide Quote;
    if v == "" {
      assert Quote("") == "" by { QuoteNothing(); }
      assert ("" + "\"" + rest)[1..] == rest;
    } else {
      QuoteStep(v);
      var tail := Quote(v[1..]) + "\"" + rest;
      QuoteRoundTrip(v[1..], rest);
      assert Quote(v) + "\"" + rest == QuoteChar(v[0]) + tail;
      assert (QuoteChar(v[0]) + tail)[|QuoteChar(v[0])|..] == tail;
      assert v == [v[0]] + v[1..];
    }
  }

  lemma QuoteNothing()
    ensures Quote("") == ""
  {
  }

  /** Whatever service and pattern a query is built from are read back from it. */
  lemma QueryRoundTrip(service: string, pattern: string)
    requires OneLine(service) && OneLine(pattern)
    ensures ReadQuery(SELECTOR + Quote(service) + "\"}") == Some(Query(service, None))
    ensures ReadQuery(SELECTOR + Quote(service) + "\"}" + " " + "|~ \"" + Quote(pattern) + "\"")
         == Some(Query(service, Some(pattern)))
  {
    hide Quote, ReadQuoted;
    var q0 := SELECTOR + Quote(service) + "\"}";
    QuoteRoundTrip(service, "}");
    assert q0[|SELECTOR|..] == Quote(service) + "\"" + "}";
    var tail := Quote(pattern) + "\"";
    QuoteRoundTrip(pattern, "");
    assert tail == Quote(pattern) + "\"" + "";
    var q1 := q0 + " " + "|~ \"" + Quote(pattern) + "\"";
    QuoteRoundTrip(service, FILTER + tail);
    assert "}" + " " + "|~ \"" == FILTER;
    assert q1[|SELECTOR|..] == Quote(service) + "\"" + (FILTER + tail);
    assert (FILTER + tail)[|FILTER|..] == tail;
    assert FILTER + tail != "}";
  }
}
