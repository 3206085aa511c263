/** Snapshots of an investigation for replay, and the checks a snapshot must pass before it is replayed. */
module Snapshots {
  import opened Base
  import opened Events
  import opened GraphBuilders
  import opened GraphRebuild

  datatype Snapshot = Snapshot(events: seq<Event>, eventCount: int, chainHash: string)

  datatype Problem = CountMismatch | NoStartEvent

  datatype Validation = Validation(isValid: bool, eventCount: nat, expectedCount: int, gaps: seq<int>, hashMatches: bool, problems: seq<Problem>)

  function Keys(events: seq<Event>): seq<string> {
    Map((e: Event) => e.key, events)
  }

  function Concat(ss: seq<string>): string {
    if |ss| == 0 then "" else ss[0] + Concat(ss[1..])
  }

  /** The hash of all keys in sequence order, one after the other. */
  function ChainHash(hash: string -> string, events: seq<Event>): string {
    hash(Concat(Keys(InOrder(events))))
  }

  function BuildSnapshot(hash: string -> string, events: seq<Event>): Snapshot {
    var sorted := InOrder(events);
    Snapshot(sorted, |sorted|, ChainHash(hash, sorted))
  }

  /** The positions at which a sorted list of events does not have that number. */
  function Misplaced(sorted: seq<Event>): seq<int> {
    if |sorted| == 0 then []
    else
      Misplaced(sorted[..|sorted| - 1])
      + if sorted[|sorted| - 1].sequenceNum != |sorted| - 1 then [|sorted| - 1] else []
  }

  ghost predicate Starts(events: seq<Event>) {
    exists e <- events :: e.eventType == InvestigationStarted
  }

  method Validate(hash: string -> string, s: Snapshot) returns (v: Validation)
    ensures v.eventCount == |s.events| && v.expectedCount == s.eventCount
    ensures v.gaps == Misplaced(InOrder(s.events)) && v.hashMatches == (ChainHash(hash, s.events) == s.chainHash)
    ensures CountMismatch in v.problems <==> s.eventCount != |s.events|
    ensures NoStartEvent in v.problems <==> !Starts(s.events)
    ensures v.isValid <==> v.problems == [] && v.hashMatches && v.gaps == []
    ensures v.isValid <==> Accepted(hash, s)
  {
    hide InOrder, ChainHash;
    var problems: seq<Problem> := [];
    if s.eventCount != |s.events| { problems := problems + [CountMismatch]; }
    var sorted := InOrder(s.events);
    var gaps: seq<int> := [];
    for i := 0 to |sorted|
      invariant gaps == Misplaced(sorted[..i])
    {
      assert sorted[..i + 1][..i] == sorted[..i];
      if sorted[i].sequenceNum != i { gaps := gaps + [i]; }
    }
    assert sorted[..|sorted|] == sorted;
    var matches := ChainHash(hash, s.events) == s.chainHash;
    var found := HasStart(s.events);
    if !found { problems := problems + [NoStartEvent]; }
    v := Validation(problems == [] && matches && gaps == [], |s.events|, s.eventCount, gaps, matches, problems);
  }

  method HasStart(events: seq<Event>) returns (found: bool)
    ensures found <==> Starts(events)
  {
    found := false;
    for i := 0 to |events|
      invariant found <==> exists j :: 0 <= j < i && events[j].eventType == InvestigationStarted
    {
      if events[i].eventType == InvestigationStarted { found := true; }
    }
    assert found ==> Starts(events) by {
      if found {
        var j :| 0 <= j < |events| && events[j].eventType == InvestigationStarted;
        assert events[j] in events;
      }
    }
  }

  /** What `Validate` accepts, said without its loops. */
  ghost predicate Accepted(hash: string -> string, s: Snapshot) {
    && s.eventCount == |s.events| && Starts(s.events)
    && ChainHash(hash, s.events) == s.chainHash && Misplaced(InOrder(s.events)) == []
  }

  // ---- Sequence completeness ----

  /** As many different numbers as there are events, all from 0 up. */
  ghost predicate Complete(events: seq<Event>) {
    DistinctNumbers(events) && forall e <- events :: 0 <= e.sequenceNum < |events|
  }

  lemma {:induction false} MisplacedNone(sorted: seq<Event>)
    ensures Misplaced(sorted) == [] <==> forall i :: 0 <= i < |sorted| ==> sorted[i].sequenceNum == i
  {
    if |sorted| > 0 {
      MisplacedNone(sorted[..|sorted| - 1]);
      assert sorted == sorted[..|sorted| - 1] + [sorted[|sorted| - 1]];
    }
  }

  lemma {:induction false} AtLeast(sorted: seq<Event>, i: nat)
    requires Sequenced(sorted) && DistinctNumbers(sorted) && i < |sorted| && 0 <= sorted[0].sequenceNum
    ensures i <= sorted[i].sequenceNum
  {
    if i > 0 {
      AtLeast(sorted, i - 1);
    }
  }

  lemma {:induction false} AtMostIndex(sorted: seq<Event>, i: nat)
    requires Sequenced(sorted) && DistinctNumbers(sorted) && i < |sorted| && sorted[|sorted| - 1].sequenceNum < |sorted|
    ensures sorted[i].sequenceNum <= i
    decreases |sorted| - i
  {
    if i + 1 < |sorted| {
      AtMostIndex(sorted, i + 1);
    }
  }

  /** No gap is found exactly if the numbers are 0 up to one less than the number of events, each once. */
  lemma NoGapsIffComplete(events: seq<Event>)
    ensures Misplaced(InOrder(events)) == [] <==> Complete(events)
  {
    var sorted := InOrder(events);
    hide InOrder;
    MisplacedNone(sorted);
    InOrderKeeps(events);
    InOrderMember(events);
    InOrderDistinct(events);
    if Complete(events) {
      forall i | 0 <= i < |sorted| ensures sorted[i].sequenceNum == i {
        assert sorted[0] in sorted && sorted[|sorted| - 1] in sorted;
        AtLeast(sorted, i);
        AtMostIndex(sorted, i);
      }
    }
    if Misplaced(sorted) == [] {
      forall e | e in events ensures 0 <= e.sequenceNum < |events| {
        assert e in sorted;
      }
    }
  }

  /** A snapshot built from the events of an investigation is valid exactly if they are complete and include a start. */
  lemma BuiltSnapshotValid(hash: string -> string, events: seq<Event>)
    ensures Accepted(hash, BuildSnapshot(hash, events)) <==> Complete(events) && Starts(events)
  {
    hide InOrder, Misplaced, Keys, Concat;
    InOrderTwice(events);
    NoGapsIffComplete(events);
    InOrderMember(events);
  }

  /**
   A valid snapshot rebuilds without a gap, without a cycle and with every event counted, and its
   events are replayed as number 0, 1, 2 and so on.
   */
  lemma ValidSnapshotRebuilds(hash: string -> string, s: Snapshot)
    requires Accepted(hash, s)
    ensures var b := Rebuild(s.events);
            && b.gaps == [] && b.totalEvents == s.eventCount
            && (forall e <- b.graph.edges :: Ascends(b.graph, e)) && LaidOut(b)
    ensures |InOrder(s.events)| == s.eventCount && forall i :: 0 <= i < s.eventCount ==> InOrder(s.events)[i].sequenceNum == i
  {
    hide InOrder, ChainHash, Rebuild, LaidOut, Ascends;
    var sorted := InOrder(s.events);
    NoGapsIffComplete(s.events);
    MisplacedNone(sorted);
    InOrderKeeps(s.events);
    InOrderMember(s.events);
    RebuiltIsAcyclic(s.events);
    RebuiltIsLaidOut(s.events);
    RebuiltGaps(s.events);
    assert forall i :: 0 <= i < |sorted| ==> sorted[i] in sorted;
    NoneMissing(s.events, sorted, Rebuild(s.events).gaps);
  }

  lemma NoneMissing(events: seq<Event>, sorted: seq<Event>, gaps: seq<int>)
    requires Complete(events) && GapsAre(events, gaps) && |sorted| == |events|
    requires forall i :: 0 <= i < |sorted| ==> sorted[i].sequenceNum == i && sorted[i] in events
    ensures gaps == []
  {
    assert |gaps| > 0 ==> gaps[0] in gaps;
    forall k ensures !Missing(events, k) {
      if 0 <= k < |events| {
        assert sorted[k] in events;
      }
    }
  }

  // ---- Tampering ----

  lemma {:induction false} ConcatInjective(a: seq<string>, b: seq<string>, n: nat)
    requires n > 0 && (forall x <- a :: |x| == n) && (forall x <- b :: |x| == n)
    requires Concat(a) == Concat(b)
    ensures a == b
  {
    assert |a| > 0 ==> a[0] in a && |Concat(a)| >= |a[0]|;
    assert |b| > 0 ==> b[0] in b && |Concat(b)| >= |b[0]|;
    if |a| > 0 && |b| > 0 {
      assert a[0] == Concat(a)[..n] && b[0] == Concat(b)[..n];
      assert Concat(a[1..]) == Concat(a)[n..] && Concat(b[1..]) == Concat(b)[n..];
      ConcatInjective(a[1..], b[1..], n);
      assert a == [a[0]] + a[1..] && b == [b[0]] + b[1..];
    }
  }

  /** With keys of one length and a hash without collisions, a matching chain hash means the same keys in the same order. */
  lemma ChainHashBinds(hash: string -> string, s: Snapshot, events: seq<Event>, n: nat)
    requires n > 0 && (forall e <- s.events :: |e.key| == n) && (forall e <- events :: |e.key| == n)
    requires forall x, y :: hash(x) == hash(y) ==> x == y
    requires Accepted(hash, s) && s.chainHash == BuildSnapshot(hash, events).chainHash
    ensures Keys(InOrder(s.events)) == Keys(InOrder(events))
  {
    hide InOrder, Misplaced;
    InOrderTwice(events);
    InOrderMember(s.events);
    InOrderMember(events);
    ConcatInjective(Keys(InOrder(s.events)), Keys(InOrder(events)), n);
  }
}
