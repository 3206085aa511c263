/** What the causal graph has learned after any number of observed co-failures. */
module CausalLearning {
  import opened BlastRadius
  import opened BlastSearch
  import opened CausalGraphs
  import opened Dicts
  import opened Rounding

  type Report = (string, string, int, string)

  predicate About(report: Report, key: (string, string)) {
    report.0 == key.0 && report.1 == key.1
  }

  /** How many of the reports are about an edge. */
  function Observed(reports: seq<Report>, key: (string, string)): (n: nat)
    ensures n == |set i | 0 <= i < |reports| && About(reports[i], key)|
  {
    if |reports| == 0 then 0
    else
      var last := |reports| - 1;
      ghost var before := set i | 0 <= i < last && About(reports[..last][i], key);
      assert (set i | 0 <= i < |reports| && About(reports[i], key)) == before + if About(reports[last], key) then {last} else {};
      Observed(reports[..last], key) + if About(reports[last], key) then 1 else 0
  }

  // ---- The delay ----

  ghost predicate Truncated(d: int, x: real) {
    if x >= 0.0 then d as real <= x < d as real + 1.0 else d as real - 1.0 < x <= d as real
  }

  /** The new delay is 0.3 of the reported and 0.7 of the known one, cut off towards zero. */
  function Blend(ms: int, known: int): real {
    0.3 * ms as real + 0.7 * known as real
  }

  lemma BlendBetween(ms: int, known: int, d: int, lo: int, hi: int)
    requires Truncated(d, Blend(ms, known)) && lo <= ms <= hi && lo <= known <= hi
    ensures lo <= d <= hi
  {
    assert lo as real <= Blend(ms, known) <= hi as real;
  }

  /** One report: a new edge starts at 0.1 and with the reported delay, a known one moves towards the report. */
  lemma OneReport(g: Edges, source: string, target: string, ms: int, now: string)
    ensures var r, key := Recorded(g, source, target, ms, now), (source, target);
            && r.vals.Keys == g.vals.Keys + {key}
            && (forall k <- g.vals :: k != key ==> r.vals[k] == g.vals[k])
            && (key !in g.vals ==> r.vals[key] == CausalEdge(source, target, "calls", 0.5, 0.1, ms, 1, now))
            && (key in g.vals ==>
                 var past, next := g.vals[key], r.vals[key];
                 && next == past.(failureCorrelation := next.failureCorrelation, avgPropagationMs := next.avgPropagationMs,
                                  observedCount := past.observedCount + 1, lastUpdated := now)
                 && (0.3 + 0.7 * past.failureCorrelation - 0.00005 <= next.failureCorrelation <= 0.3 + 0.7 * past.failureCorrelation + 0.00005)
                 && Truncated(next.avgPropagationMs, Blend(ms, past.avgPropagationMs)))
  {
    var key := (source, target);
    if key in g.vals {
      NextNear(g.vals[key].failureCorrelation);
      TruncateIs(Blend(ms, g.vals[key].avgPropagationMs));
      hide Round4, Truncate, Truncated, NextCorrelation;
      assert 0.3 * ms as real + (1.0 - 0.3) * g.vals[key].avgPropagationMs as real == Blend(ms, g.vals[key].avgPropagationMs);
    }
  }

  lemma NextNear(c: real)
    ensures 0.3 + 0.7 * c - 0.00005 <= NextCorrelation(c) <= 0.3 + 0.7 * c + 0.00005
  {
    Round4IsRounding();
    hide Round4;
    assert 0.3 * 1.0 + (1.0 - 0.3) * c == 0.3 + 0.7 * c;
  }

  lemma TruncateIs(x: real)
    ensures Truncated(Truncate(x), x)
  {
  }

  // ---- Any number of reports ----

  /** Every known or reported delay of the edge lies in the range. */
  ghost predicate DelaysWithin(g: Edges, reports: seq<Report>, key: (string, string), lo: int, hi: int) {
    && (key in g.vals ==> lo <= g.vals[key].avgPropagationMs <= hi)
    && forall report <- reports :: About(report, key) ==> lo <= report.2 <= hi
  }

  ghost predicate Learned(g: Edges, reports: seq<Report>, key: (string, string), e: CausalEdge) {
    var n := Observed(reports, key);
    if n == 0 then key in g.vals && e == g.vals[key]
    else
      && e.observedCount == n + (if key in g.vals then g.vals[key].observedCount else 0)
      && e.failureCorrelation == (if key in g.vals then CoFailures(g.vals[key].failureCorrelation, n) else CoFailures(0.1, n - 1))
      && (key !in g.vals ==> (e.source, e.target) == key)
      && (key in g.vals ==> e.source == g.vals[key].source && e.target == g.vals[key].target)
      && e.lastUpdated == reports[LastAbout(reports, key)].3
  }

  /** The latest report about an edge. */
  function LastAbout(reports: seq<Report>, key: (string, string)): (i: nat)
    requires Observed(reports, key) > 0
    ensures i < |reports| && About(reports[i], key)
    ensures forall j :: i < j < |reports| ==> !About(reports[j], key)
  {
    var last := |reports| - 1;
    if About(reports[last], key) then last
    else
      var i := LastAbout(reports[..last], key);
      assert forall j :: i < j < last ==> reports[j] == reports[..last][j];
      i
  }

  /**
   After any reports there is an edge exactly if it was known or has been reported; it has been
   observed once more for each report; its correlation has been updated as often, from 0.1 on if it
   was new; it carries the time of the latest report; and its delay stays within the known and the
   reported ones.
   */
  lemma {:induction false} ReportsLearned(g: Edges, reports: seq<Report>, key: (string, string))
    ensures var r := RecordedAll(g, reports).vals;
            && (key in r <==> key in g.vals || Observed(reports, key) > 0)
            && (key in r ==> Learned(g, reports, key, r[key]))
    decreases |reports|
  {
    hide Recorded, NextCorrelation, Learned, Observed;
    if |reports| == 0 {
      NothingLearned(g, key);
    } else {
      var last := |reports| - 1;
      ReportsLearned(g, reports[..last], key);
      var h, report := RecordedAll(g, reports[..last]), reports[last];
      RecordedKeys(h, report);
      ObservedOnce(reports, key);
      if key in RecordedAll(g, reports).vals {
        LearnedMore(g, reports, key, h);
      }
    }
  }

  lemma NothingLearned(g: Edges, key: (string, string))
    ensures Observed([], key) == 0 && (key in g.vals ==> Learned(g, [], key, g.vals[key]))
  {
  }

  lemma ObservedOnce(reports: seq<Report>, key: (string, string))
    requires |reports| > 0
    ensures var last := |reports| - 1; Observed(reports, key) == Observed(reports[..last], key) + if About(reports[last], key) then 1 else 0
  {
  }

  lemma RecordedKeys(h: Edges, report: Report)
    ensures Recorded(h, report.0, report.1, report.2, report.3).vals.Keys == h.vals.Keys + {(report.0, report.1)}
  {
    hide NextCorrelation;
  }

  lemma LearnedMore(g: Edges, reports: seq<Report>, key: (string, string), h: Edges)
    requires |reports| > 0
    requires key in h.vals <==> key in g.vals || Observed(reports[..|reports| - 1], key) > 0
    requires key in h.vals ==> Learned(g, reports[..|reports| - 1], key, h.vals[key])
    requires var report := reports[|reports| - 1]; key in Recorded(h, report.0, report.1, report.2, report.3).vals
    ensures var report := reports[|reports| - 1]; Learned(g, reports, key, Recorded(h, report.0, report.1, report.2, report.3).vals[key])
  {
    hide NextCorrelation, Truncate, Observed;
    ObservedOnce(reports, key);
    if Observed(reports, key) > 0 {
      LastAboutIs(reports, key);
    }
  }

  lemma LastAboutIs(reports: seq<Report>, key: (string, string))
    requires Observed(reports, key) > 0
    ensures var last := |reports| - 1;
            if About(reports[last], key) then LastAbout(reports, key) == last
            else Observed(reports[..last], key) > 0 && LastAbout(reports, key) == LastAbout(reports[..last], key)
  {
  }

  /** The learned delay lies between the smallest and the largest of the known and the reported ones. */
  lemma {:induction false} DelayLearned(g: Edges, reports: seq<Report>, key: (string, string), lo: int, hi: int)
    requires DelaysWithin(g, reports, key, lo, hi) && key in RecordedAll(g, reports).vals
    ensures lo <= RecordedAll(g, reports).vals[key].avgPropagationMs <= hi
    decreases |reports|
  {
    hide Recorded, Truncated;
    if |reports| > 0 {
      var last := |reports| - 1;
      var h, report := RecordedAll(g, reports[..last]), reports[last];
      OneReport(h, report.0, report.1, report.2, report.3);
      if key in h.vals {
        DelayLearned(g, reports[..last], key, lo, hi);
        if About(report, key) {
          var r := RecordedAll(g, reports).vals[key];
          BlendBetween(report.2, h.vals[key].avgPropagationMs, r.avgPropagationMs, lo, hi);
        }
      }
    }
  }
}
