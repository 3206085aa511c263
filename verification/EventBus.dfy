/** The event bus: duplicate detection, a history window for each investigation, and subscribers. */
module EventBus {
  import opened Base
  import opened Events

  /** A handler belongs to a connection; every call that makes one makes a new one. */
  datatype Handler = Handler(connection: string, serial: nat)

  const SEEN_LIMIT: nat := 100_000
  const SEEN_TRIM: nat := 10_000
  const HISTORY_LIMIT: nat := 10_000

  /** What the bus remembers of the events it accepted. */
  datatype Window = Window(seen: seq<string>, history: map<string, seq<Event>>)

  type Subscribers = map<string, seq<Handler>>

  function LastN<T>(s: seq<T>, n: nat): (r: seq<T>)
    ensures |r| == if |s| <= n then |s| else n
    ensures forall i :: 0 <= i < |r| ==> r[i] == s[|s| - |r| + i]
  {
    if |s| <= n then s else s[|s| - n..]
  }

  function HistoryOf(w: Window, inv: string): seq<Event> {
    if inv in w.history then w.history[inv] else []
  }

  function Accept(w: Window, e: Event): Window {
    var seen := w.seen + [e.key];
    Window(
      if |seen| > SEEN_LIMIT then seen[SEEN_TRIM..] else seen,
      w.history[e.investigation := LastN(HistoryOf(w, e.investigation) + [e], HISTORY_LIMIT)])
  }

  function Process(w: Window, e: Event): Window {
    if e.key in w.seen then w else Accept(w, e)
  }

  /** The buffered events of an investigation from a sequence number on. */
  function Since(history: seq<Event>, since: int): (r: seq<Event>)
    ensures forall e :: e in r <==> e in history && e.sequenceNum >= since
  {
    if |history| == 0 then []
    else
      assert history == history[..|history| - 1] + [history[|history| - 1]];
      Since(history[..|history| - 1], since)
      + (if history[|history| - 1].sequenceNum >= since then [history[|history| - 1]] else [])
  }

  function SubscribersOf(m: Subscribers, inv: string): seq<Handler> {
    if inv in m then m[inv] else []
  }

  function Subscribed(m: Subscribers, inv: string, h: Handler): Subscribers {
    m[inv := SubscribersOf(m, inv) + [h]]
  }

  function Unsubscribed(m: Subscribers, inv: string, h: Handler): Subscribers {
    if h in SubscribersOf(m, inv) then m[inv := RemoveFirst(SubscribersOf(m, inv), h)] else m
  }

  class InProcessEventBus {
    var seen: seq<string>
    var history: map<string, seq<Event>>
    var subscribers: Subscribers

    constructor ()
      ensures seen == [] && history == map[] && subscribers == map[]
    {
      seen, history, subscribers := [], map[], map[];
    }

    ghost function Remembered(): Window
      reads this
    {
      Window(seen, history)
    }

    method Subscribe(inv: string, h: Handler)
      modifies this`subscribers
      ensures subscribers == Subscribed(old(subscribers), inv, h)
    {
      subscribers := subscribers[inv := SubscribersOf(subscribers, inv) + [h]];
    }

    method Unsubscribe(inv: string, h: Handler)
      modifies this`subscribers
      ensures subscribers == Unsubscribed(old(subscribers), inv, h)
    {
      var subs := SubscribersOf(subscribers, inv);
      if h in subs {
        subscribers := subscribers[inv := RemoveFirst(subs, h)];
      }
    }

    method GetHistory(inv: string, since: int) returns (r: seq<Event>)
      ensures r == Since(HistoryOf(Remembered(), inv), since)
    {
      r := Since(if inv in history then history[inv] else [], since);
    }

    /** Everything up to the first delivery: refuse a duplicate, remember the event, look up who is to get it. */
    method BeginEvent(e: Event) returns (isNew: bool, handlers: seq<Handler>)
      modifies this`seen, this`history
      ensures Remembered() == Process(old(Remembered()), e)
      ensures isNew <==> e.key !in old(seen)
      ensures handlers == if isNew then SubscribersOf(subscribers, e.investigation) else []
    {
      if e.key in seen { return false, []; }
      seen := seen + [e.key];
      if |seen| > SEEN_LIMIT {
        ghost var all := seen;
        var keys := seen[..SEEN_TRIM];
        for i := 0 to SEEN_TRIM
          invariant history == old(history)
          invariant seen == all[i..] && |all| > SEEN_LIMIT && keys == all[..SEEN_TRIM]
        {
          seen := RemoveFirst(seen, keys[i]);
        }
      }
      assert seen == Accept(old(Remembered()), e).seen;
      var buffered := (if e.investigation in history then history[e.investigation] else []) + [e];
      history := history[e.investigation := buffered];
      if |buffered| > HISTORY_LIMIT {
        history := history[e.investigation := buffered[|buffered| - HISTORY_LIMIT..]];
      }
      isNew, handlers := true, SubscribersOf(subscribers, e.investigation);
    }
  }

  // ---- What the windows hold, over any run of events ----

  datatype Log = Log(window: Window, accepted: seq<Event>)

  function Feed(events: seq<Event>): Log {
    if |events| == 0 then Log(Window([], map[]), [])
    else
      var l := Feed(events[..|events| - 1]);
      var e := events[|events| - 1];
      Log(Process(l.window, e), if e.key in l.window.seen then l.accepted else l.accepted + [e])
  }

  function Keys(events: seq<Event>): (r: seq<string>)
    ensures |r| == |events| && forall i :: 0 <= i < |r| ==> r[i] == events[i].key
  {
    Map((e: Event) => e.key, events)
  }

  function OfInvestigation(events: seq<Event>, inv: string): seq<Event> {
    if |events| == 0 then []
    else
      OfInvestigation(events[..|events| - 1], inv)
      + (if events[|events| - 1].investigation == inv then [events[|events| - 1]] else [])
  }

  /** The seen keys are the last accepted ones: all of them, or between 90,001 and 100,000. */
  ghost predicate SeenWindow(w: Window, accepted: seq<Event>) {
    && |w.seen| <= SEEN_LIMIT && |w.seen| <= |accepted|
    && (|w.seen| == |accepted| || |w.seen| > SEEN_LIMIT - SEEN_TRIM)
    && w.seen == Keys(accepted)[|accepted| - |w.seen|..]
  }

  /** Each history is the last 10,000 accepted events of its investigation, in order. */
  ghost predicate HistoryWindow(w: Window, accepted: seq<Event>) {
    forall inv :: HistoryOf(w, inv) == LastN(OfInvestigation(accepted, inv), HISTORY_LIMIT)
  }

  /** Among any 90,002 consecutive accepted events no key occurs twice. */
  ghost predicate LocallyDistinct(accepted: seq<Event>) {
    forall i, j :: 0 <= i < j < |accepted| && j - i <= SEEN_LIMIT - SEEN_TRIM + 1 ==> accepted[i].key != accepted[j].key
  }

  lemma AcceptSeen(w: Window, accepted: seq<Event>, e: Event)
    requires SeenWindow(w, accepted)
    ensures SeenWindow(Accept(w, e), accepted + [e])
  {
    var ks := Keys(accepted);
    assert Keys(accepted + [e]) == ks + [e.key];
    var all := w.seen + [e.key];
    SuffixSnoc(ks, |accepted| - |w.seen|, e.key);
    if |all| > SEEN_LIMIT {
      SuffixOfSuffix(ks + [e.key], |accepted| - |w.seen|, SEEN_TRIM);
    }
  }

  lemma SuffixSnoc<T>(s: seq<T>, n: nat, x: T)
    requires n <= |s|
    ensures s[n..] + [x] == (s + [x])[n..]
  {
  }

  lemma SuffixOfSuffix<T>(s: seq<T>, n: nat, m: nat)
    requires n + m <= |s|
    ensures s[n..][m..] == s[n + m..]
  {
  }

  lemma LastNSnoc<T>(s: seq<T>, x: T, n: nat)
    requires n > 0
    ensures LastN(LastN(s, n) + [x], n) == LastN(s + [x], n)
  {
  }

  lemma OfInvestigationSnoc(events: seq<Event>, e: Event, inv: string)
    ensures OfInvestigation(events + [e], inv) ==
            if e.investigation == inv then OfInvestigation(events, inv) + [e] else OfInvestigation(events, inv)
  {
    assert (events + [e])[..|events|] == events;
  }

  lemma AcceptHistory(w: Window, accepted: seq<Event>, e: Event)
    requires HistoryWindow(w, accepted)
    ensures HistoryWindow(Accept(w, e), accepted + [e])
  {
    hide OfInvestigation;
    forall inv
      ensures HistoryOf(Accept(w, e), inv) == LastN(OfInvestigation(accepted + [e], inv), HISTORY_LIMIT)
    {
      OfInvestigationSnoc(accepted, e, inv);
      if inv == e.investigation {
        LastNSnoc(OfInvestigation(accepted, inv), e, HISTORY_LIMIT);
      }
    }
  }

  lemma AcceptDistinct(w: Window, accepted: seq<Event>, e: Event)
    requires SeenWindow(w, accepted) && LocallyDistinct(accepted) && e.key !in w.seen
    ensures LocallyDistinct(accepted + [e])
  {
    var all := accepted + [e];
    forall i, j | 0 <= i < j < |all| && j - i <= SEEN_LIMIT - SEEN_TRIM + 1
      ensures all[i].key != all[j].key
    {
      if j == |accepted| {
        assert w.seen[i - (|accepted| - |w.seen|)] == accepted[i].key;
      }
    }
  }

  /** Over every run of events: the two windows are what they should be, and duplicates are kept apart. */
  lemma {:induction false} FeedWindows(events: seq<Event>)
    ensures var l := Feed(events);
            SeenWindow(l.window, l.accepted) && HistoryWindow(l.window, l.accepted) && LocallyDistinct(l.accepted)
    decreases |events|
  {
    if |events| > 0 {
      hide Accept, SeenWindow, HistoryWindow, LocallyDistinct;
      FeedWindows(events[..|events| - 1]);
      var l := Feed(events[..|events| - 1]);
      var e := events[|events| - 1];
      if e.key !in l.window.seen {
        AcceptSeen(l.window, l.accepted, e);
        AcceptHistory(l.window, l.accepted, e);
        AcceptDistinct(l.window, l.accepted, e);
      }
    } else {
      NothingFed();
    }
  }

  /** No event is lost: whatever is not accepted repeats the key of one that was. */
  lemma {:induction false} NothingLost(events: seq<Event>, e: Event)
    requires e in events
    ensures exists a <- Feed(events).accepted :: a.key == e.key
    decreases |events|
  {
    var front, last := events[..|events| - 1], events[|events| - 1];
    assert events == front + [last];
    hide Process;
    if e in front {
      NothingLost(front, e);
    } else if last.key in Feed(front).window.seen {
      FeedWindows(front);
      SeenWasAccepted(Feed(front), last.key);
    }
  }

  lemma SeenWasAccepted(l: Log, key: string)
    requires SeenWindow(l.window, l.accepted) && key in l.window.seen
    ensures exists a <- l.accepted :: a.key == key
  {
    var keys := Keys(l.accepted);
    var i :| 0 <= i < |keys| && keys[i] == key;
    assert l.accepted[i] in l.accepted;
  }

  // ---- What a reader of the history gets ----

  /** The positions of the events read: ascending, and all with a number from `since` on. */
  lemma {:induction false} SinceMeaning(history: seq<Event>, since: int) returns (at: seq<nat>)
    ensures |at| == |Since(history, since)|
    ensures forall i, j :: 0 <= i < j < |at| ==> at[i] < at[j]
    ensures forall i :: 0 <= i < |at| ==> at[i] < |history| && Since(history, since)[i] == history[at[i]]
    ensures forall k :: 0 <= k < |history| ==> (k in at <==> history[k].sequenceNum >= since)
    decreases |history|
  {
    at := [];
    if |history| > 0 {
      var n := |history| - 1;
      at := SinceMeaning(history[..n], since);
      if history[n].sequenceNum >= since { at := at + [n]; }
    }
  }

  lemma NothingFed()
    ensures var l := Feed([]);
            SeenWindow(l.window, l.accepted) && HistoryWindow(l.window, l.accepted) && LocallyDistinct(l.accepted)
  {
  }

  // ---- The bound cannot be improved: 90,003 consecutive accepted events may hold a duplicate ----

  function Numbered(n: nat): Event {
    Event(seq(n, _ => 'x'), OtherEvent, "i", n, "", "")
  }

  function FirstEvents(n: nat): (r: seq<Event>)
    ensures |r| == n && forall i :: 0 <= i < n ==> r[i] == Numbered(i)
  {
    seq(n, i requires 0 <= i => Numbered(i))
  }

  lemma {:induction false} AllSeen(n: nat)
    requires n <= SEEN_LIMIT
    ensures Feed(FirstEvents(n)).accepted == FirstEvents(n)
    ensures Feed(FirstEvents(n)).window.seen == Keys(FirstEvents(n))
  {
    if n > 0 {
      hide Feed, Numbered, Accept;
      AllSeen(n - 1);
      NewKey(n - 1);
      assert FirstEvents(n) == FirstEvents(n - 1) + [Numbered(n - 1)];
      assert Keys(FirstEvents(n)) == Keys(FirstEvents(n - 1)) + [Numbered(n - 1).key];
      FeedOne(FirstEvents(n - 1), Numbered(n - 1));
      AcceptedSeen(Feed(FirstEvents(n - 1)).window, Numbered(n - 1));
    } else {
      NothingSeen();
    }
  }

  lemma NothingSeen()
    ensures Feed(FirstEvents(0)).accepted == FirstEvents(0) && Feed(FirstEvents(0)).window.seen == Keys(FirstEvents(0))
  {
  }

  lemma AcceptedSeen(w: Window, e: Event)
    ensures Accept(w, e).seen == if |w.seen| + 1 > SEEN_LIMIT then (w.seen + [e.key])[SEEN_TRIM..] else w.seen + [e.key]
  {
  }

  lemma NewKey(n: nat)
    ensures Numbered(n).key !in Keys(FirstEvents(n))
  {
    forall i | 0 <= i < n ensures Keys(FirstEvents(n))[i] != Numbered(n).key {
      assert |Keys(FirstEvents(n))[i]| == i;
    }
  }

  /** One event past the limit: the ten thousand oldest keys are forgotten. */
  lemma Trimmed()
    ensures var es := FirstEvents(SEEN_LIMIT + 1);
            Feed(es).accepted == es && Feed(es).window.seen == Keys(es)[SEEN_TRIM..]
  {
    hide FirstEvents, Numbered, Feed, Accept;
    var n := SEEN_LIMIT;
    AllSeen(n);
    NewKey(n);
    var es := FirstEvents(n + 1);
    assert es == FirstEvents(n) + [Numbered(n)];
    assert Keys(es) == Keys(FirstEvents(n)) + [Numbered(n).key];
    FeedOne(FirstEvents(n), Numbered(n));
    AcceptedSeen(Feed(FirstEvents(n)).window, Numbered(n));
  }

  /** A run that accepts the same key twice, 90,002 places apart. */
  lemma ForgottenKey()
    ensures var events := FirstEvents(SEEN_LIMIT + 1) + [Numbered(SEEN_TRIM - 1)];
            var a := Feed(events).accepted;
            && a == events
            && a[SEEN_TRIM - 1].key == a[SEEN_LIMIT + 1].key
            && SEEN_LIMIT + 1 - (SEEN_TRIM - 1) == 90_002
  {
    Trimmed();
    var es := FirstEvents(SEEN_LIMIT + 1);
    var again := Numbered(SEEN_TRIM - 1);
    var seen := Keys(es)[SEEN_TRIM..];
    forall i | 0 <= i < |seen| ensures seen[i] != again.key {
      assert |seen[i]| == SEEN_TRIM + i;
    }
    assert (es + [again])[..SEEN_LIMIT + 1] == es;
    hide Feed;
    FeedOne(es, again);
  }

  lemma FeedOne(es: seq<Event>, e: Event)
    requires e.key !in Feed(es).window.seen
    ensures Feed(es + [e]) == Log(Accept(Feed(es).window, e), Feed(es).accepted + [e])
  {
    assert (es + [e])[..|es|] == es;
  }
}
