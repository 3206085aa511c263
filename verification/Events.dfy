/** The events that an investigation emits, numbered in the order in which they happen. */
module Events {
  import opened Sorting

  datatype EventType =
    | InvestigationStarted | IncidentClassified | PlaybookSelected
    | ToolCalled | ToolResponded | ToolFailed | ToolTimeout
    | LlmInvoked | HypothesisScored | HypothesisSelected | MemoryQueried
    | ControlRequested | RcaGenerated | OtherEvent

  /** `worker` and `receiptId` come from the payload and are empty where it has none. */
  datatype Event = Event(key: string, eventType: EventType, investigation: string, sequenceNum: int,
                         worker: string, receiptId: string)

  function SequenceOf(e: Event): real {
    e.sequenceNum as real
  }

  /** Events sorted by sequence number; those with the same number keep their order. */
  function InOrder(events: seq<Event>): seq<Event> {
    SortBy(SequenceOf, events)
  }

  ghost predicate Sequenced(events: seq<Event>) {
    forall i, j :: 0 <= i < j < |events| ==> events[i].sequenceNum <= events[j].sequenceNum
  }

  /** The events in sequence order are the given ones, each as often as it is there. */
  lemma InOrderKeeps(events: seq<Event>)
    ensures multiset(InOrder(events)) == multiset(events) && |InOrder(events)| == |events| && Sequenced(InOrder(events))
  {
    SortKeeps(SequenceOf, events);
    var s := InOrder(events);
    forall i, j | 0 <= i < j < |s| ensures s[i].sequenceNum <= s[j].sequenceNum {
      assert SequenceOf(s[i]) <= SequenceOf(s[j]);
    }
  }

  ghost predicate DistinctNumbers(events: seq<Event>) {
    forall i, j :: 0 <= i < j < |events| ==> events[i].sequenceNum != events[j].sequenceNum
  }

  /** Sorting neither separates equal numbers nor makes different ones equal. */
  lemma InOrderDistinct(events: seq<Event>)
    ensures DistinctNumbers(InOrder(events)) <==> DistinctNumbers(events)
  {
    KeysAreNumbers(events);
    KeysAreNumbers(InOrder(events));
    if DistinctNumbers(events) {
      SortDistinct(SequenceOf, events);
    }
    if DistinctNumbers(InOrder(events)) {
      SortWasDistinct(SequenceOf, events);
    }
  }

  lemma KeysAreNumbers(events: seq<Event>)
    ensures DistinctKeys(SequenceOf, events) <==> DistinctNumbers(events)
    ensures Ascending(SequenceOf, events) <==> Sequenced(events)
  {
    forall i, j | 0 <= i < |events| && 0 <= j < |events|
      ensures SequenceOf(events[i]) == SequenceOf(events[j]) <==> events[i].sequenceNum == events[j].sequenceNum
      ensures SequenceOf(events[i]) <= SequenceOf(events[j]) <==> events[i].sequenceNum <= events[j].sequenceNum
    {
    }
  }

  lemma InOrderAlready(events: seq<Event>)
    requires Sequenced(events)
    ensures InOrder(events) == events
  {
    KeysAreNumbers(events);
    SortSorted(SequenceOf, events);
  }

  lemma InOrderTwice(events: seq<Event>)
    ensures InOrder(InOrder(events)) == InOrder(events)
  {
    SortKeeps(SequenceOf, events);
    SortSorted(SequenceOf, InOrder(events));
  }

  lemma InOrderMember(events: seq<Event>)
    ensures forall e :: e in InOrder(events) <==> e in events
  {
    InOrderKeeps(events);
    forall e ensures e in events <==> e in InOrder(events) {
      assert e in events <==> e in multiset(events);
      assert e in InOrder(events) <==> e in multiset(InOrder(events));
    }
  }
}
