/** That connecting and dispatching come to an end, and that a client is handed nothing it did not ask for. */
module ReconnectDelivery {
  import opened Base
  import opened Events
  import opened EventBus
  import opened WSManager
  import opened Reconnect

  // ---- Steps that finish what was begun ----

  function NextAll(s: System, steps: seq<Step>): System {
    if |steps| == 0 then s else Next(NextAll(s, steps[..|steps| - 1]), steps[|steps| - 1])
  }

  lemma {:induction false} ReachOn(steps: seq<Step>, more: seq<Step>)
    ensures Reach(steps + more) == NextAll(Reach(steps), more)
    decreases |more|
  {
    hide Next;
    if |more| == 0 {
      assert steps + more == steps;
    } else {
      assert (steps + more)[..|steps + more| - 1] == steps + more[..|more| - 1];
      ReachOn(steps, more[..|more| - 1]);
    }
  }

  lemma {:induction false} NextAllConcat(s: System, a: seq<Step>, b: seq<Step>)
    ensures NextAll(s, a + b) == NextAll(NextAll(s, a), b)
    decreases |b|
  {
    hide Next;
    if |b| == 0 {
      assert a + b == a;
    } else {
      assert (a + b)[..|a + b| - 1] == a + b[..|b| - 1];
      NextAllConcat(s, a, b[..|b| - 1]);
    }
  }

  lemma NextFirst(s: System, step: Step, more: seq<Step>)
    ensures NextAll(s, [step] + more) == NextAll(Next(s, step), more)
  {
    assert NextAll(s, [step]) == Next(s, step) by { assert [step][..0] == []; }
    NextAllConcat(s, [step], more);
  }

  /** What a step of the dispatcher or of one connect leaves alone. */
  ghost predicate SameJoin(s: System, s': System, id: string) {
    && s'.accepted == s.accepted
    && (id in s.joins ==> id in s'.joins && s'.joins[id].(phase := Acking, readAt := 0) == s.joins[id].(phase := Acking, readAt := 0))
  }

  /** How much of dispatching is left. */
  function Undispatched(s: System): nat {
    match s.dispatch
    case Between => 0
    case Named(_, rest) => |rest| + 2 + |SubscribersOf(s.hub.subscribers, "*")|
    case Everyone(_, rest) => |rest| + 1
  }

  function DispatchStep(s: System): Step {
    if s.dispatch != Between && |s.dispatch.rest| > 0 then HandOver else EndList
  }

  lemma DispatchAdvances(s: System, id: string)
    requires s.dispatch != Between
    ensures var s' := Next(s, DispatchStep(s));
            Undispatched(s') < Undispatched(s) && SameJoin(s, s', id) && s'.joins == s.joins
  {
    hide SubscribersOf, HandedTo;
  }

  /** The dispatcher, left to itself, gets between events again. */
  lemma {:induction false} DispatchEnds(s: System, id: string) returns (more: seq<Step>)
    ensures NextAll(s, more).dispatch == Between && SameJoin(s, NextAll(s, more), id) && NextAll(s, more).joins == s.joins
    ensures forall m <- more :: m == HandOver || m == EndList
    decreases Undispatched(s)
  {
    hide Next, Undispatched;
    more := [];
    if s.dispatch != Between {
      DispatchAdvances(s, id);
      var rest := DispatchEnds(Next(s, DispatchStep(s)), id);
      NextFirst(s, DispatchStep(s), rest);
      more := [DispatchStep(s)] + rest;
    }
  }

  /** What is left of a connect. */
  function Unread(s: System, id: string): nat
    requires id in s.joins
  {
    match s.joins[id].phase
    case Acking => 0
    case Replaying(pending) => |pending| + 1
    case Connected => 0
  }

  lemma HistoryAdvances(s: System, id: string)
    requires id in s.joins && s.joins[id].phase.Replaying?
    ensures var s' := Next(s, HandHistory(id));
            && id in s'.joins && Unread(s', id) < Unread(s, id) && SameJoin(s, s', id) && s'.dispatch == s.dispatch
            && !s'.joins[id].phase.Acking?
  {
    hide HandedTo;
  }

  lemma {:induction false} HistoryEnds(s: System, id: string) returns (more: seq<Step>)
    requires id in s.joins && !s.joins[id].phase.Acking?
    ensures var r := NextAll(s, more);
            id in r.joins && r.joins[id].phase == Connected && SameJoin(s, r, id) && r.dispatch == s.dispatch
    ensures forall m <- more :: m == HandHistory(id)
    decreases Unread(s, id)
  {
    hide Next;
    more := [];
    if s.joins[id].phase.Replaying? {
      HistoryAdvances(s, id);
      var rest := HistoryEnds(Next(s, HandHistory(id)), id);
      NextFirst(s, HandHistory(id), rest);
      more := [HandHistory(id)] + rest;
    }
  }

  lemma ReadStarts(s: System, id: string)
    requires id in s.joins && s.joins[id].phase == Acking
    ensures var s' := Next(s, ReadHistory(id)); id in s'.joins && s'.joins[id].phase.Replaying? && SameJoin(s, s', id) && s'.dispatch == s.dispatch
  {
    hide HistoryOf, Since;
  }

  /** A connect, left to itself, is done after reading the history and handing it over. */
  lemma ConnectEnds(s: System, id: string) returns (more: seq<Step>)
    requires id in s.joins
    ensures var r := NextAll(s, more);
            id in r.joins && r.joins[id].phase == Connected && SameJoin(s, r, id) && r.dispatch == s.dispatch
    ensures forall m <- more :: m == ReadHistory(id) || m == HandHistory(id)
  {
    hide Next;
    if s.joins[id].phase == Acking {
      ReadStarts(s, id);
      var rest := HistoryEnds(Next(s, ReadHistory(id)), id);
      NextFirst(s, ReadHistory(id), rest);
      more := [ReadHistory(id)] + rest;
    } else {
      more := HistoryEnds(s, id);
    }
  }

  /** What a connection that stays is owed. */
  ghost predicate Owed(s: System, id: string, k: nat)
    requires id in s.joins && k < |s.accepted| && s.joins[id].readAt <= |s.accepted|
  {
    var j, e := s.joins[id], s.accepted[k];
    && e.investigation == j.investigation && e.sequenceNum >= j.since
    && (k >= j.joinedAt || e in WindowAt(s.accepted, j.readAt, j.investigation))
  }

  /**
   From every state that is reached, a connection that has stayed gets what it is owed once its own
   connect and the dispatcher have finished what they began, and they do.
   */
  lemma GapsClose(steps: seq<Step>, id: string) returns (more: seq<Step>)
    requires Stays(Reach(steps), id)
    ensures forall m <- more :: m == ReadHistory(id) || m == HandHistory(id) || m == HandOver || m == EndList
    ensures var r := Reach(steps + more);
            && Stays(r, id) && r.joins[id].phase == Connected && r.dispatch == Between && r.accepted == Reach(steps).accepted
            && r.joins[id].readAt <= |r.accepted|
            && forall k :: 0 <= k < |r.accepted| && Owed(r, id, k) ==> r.accepted[k] in HandedTo(r, id)
  {
    hide Reach, NextAll, WindowAt, HandedTo, Next;
    var s := Reach(steps);
    var first := ConnectEnds(s, id);
    var connected := NextAll(s, first);
    var second := DispatchEnds(connected, id);
    more := first + second;
    NextAllConcat(s, first, second);
    ReachOn(steps, more);
    var r := Reach(steps + more);
    ReadInPlace(steps + more, id);
    forall k | 0 <= k < |r.accepted| && Owed(r, id, k) ensures r.accepted[k] in HandedTo(r, id) {
      NoGap(steps + more, id, k);
    }
  }

  lemma ReadInPlace(steps: seq<Step>, id: string)
    requires var s := Reach(steps); Stays(s, id) && s.joins[id].phase == Connected
    ensures Reach(steps).joins[id].readAt <= |Reach(steps).accepted|
  {
    ReachSound(steps);
    assert Gapless(Reach(steps), id);
  }

  // ---- Nothing that was not asked for ----

  /** An accepted event of the investigation the connection asked for; "*" asks for all. */
  ghost predicate Wanted(accepted: seq<Event>, inv: string, e: Event) {
    e in accepted && (e.investigation == inv || inv == "*")
  }

  ghost predicate HandedWanted(s: System, id: string) {
    && (id in s.handed ==> id in s.joins)
    && (Stays(s, id) ==>
         && (forall e <- HandedTo(s, id) :: Wanted(s.accepted, s.joins[id].investigation, e))
         && (s.joins[id].phase.Replaying? ==> forall e <- s.joins[id].phase.pending :: Wanted(s.accepted, s.joins[id].investigation, e)))
  }

  ghost predicate CallWanted(s: System, h: Handler, e: Event) {
    h.connection in s.joins && (Stays(s, h.connection) ==> Wanted(s.accepted, s.joins[h.connection].investigation, e))
  }

  /** The handlers still to be called for the event being handed out all belong to clients that want it. */
  ghost predicate DispatchWanted(s: System) {
    s.dispatch != Between ==>
      s.dispatch.event in s.accepted && forall h <- s.dispatch.rest :: CallWanted(s, h, s.dispatch.event)
  }

  ghost predicate OnlyWanted(s: System) {
    DispatchWanted(s) && forall id :: HandedWanted(s, id)
  }

  /** Whoever is subscribed where `e` is handed out wants it. */
  lemma SubscriberWants(s: System, inv: string, h: Handler, e: Event)
    requires Sound(s) && h in SubscribersOf(s.hub.subscribers, inv)
    requires e in s.accepted && (e.investigation == inv || inv == "*")
    ensures CallWanted(s, h, e)
  {
    hide HistoryWindow;
    assert BelongsTo(s.hub, inv, h);
    assert Gapless(s, h.connection);
  }

  lemma SameWanted(s: System, s': System, id: string)
    requires HandedWanted(s, id) && s.accepted <= s'.accepted
    requires (id in s'.handed <==> id in s.handed) && (id in s.handed ==> s'.handed[id] == s.handed[id])
    requires id in s.joins <==> id in s'.joins
    requires Stays(s', id) ==> Stays(s, id) && s'.joins[id].investigation == s.joins[id].investigation && s'.joins[id].phase == s.joins[id].phase
    ensures HandedWanted(s', id)
  {
    assert HandedTo(s', id) == HandedTo(s, id);
  }

  lemma TakeWanted(s: System, e: Event)
    requires Sound(s) && OnlyWanted(s)
    ensures OnlyWanted(Next(s, TakeEvent(e)))
  {
    hide Sound, Accept, SubscribersOf, CallWanted, HandedWanted;
    var s' := Next(s, TakeEvent(e));
    if s' != s {
      forall id ensures HandedWanted(s', id) {
        assert HandedWanted(s, id);
        SameWanted(s, s', id);
      }
      forall h | h in SubscribersOf(s.hub.subscribers, e.investigation) ensures CallWanted(s', h, e) {
        TakenSubscriber(s, e, h);
      }
    }
  }

  lemma TakenSubscriber(s: System, e: Event, h: Handler)
    requires Sound(s) && h in SubscribersOf(s.hub.subscribers, e.investigation)
    ensures CallWanted(s.(window := Accept(s.window, e), accepted := s.accepted + [e],
                          dispatch := Named(e, SubscribersOf(s.hub.subscribers, e.investigation))), h, e)
  {
    hide HistoryWindow, Accept;
    assert BelongsTo(s.hub, e.investigation, h);
    assert Gapless(s, h.connection);
  }

  lemma HandWanted(s: System, h: Handler, e: Event, id: string)
    requires CallWanted(s, h, e) && HandedWanted(s, id)
    ensures HandedWanted(CallHandler(s, h, e), id)
  {
    var s' := CallHandler(s, h, e);
    if h.connection in s.hub.connections && id == h.connection {
      assert HandedTo(s', id) == HandedTo(s, id) + [e];
    }
  }

  lemma HandOverWanted(s: System)
    requires OnlyWanted(s)
    ensures OnlyWanted(Next(s, HandOver))
  {
    hide CallWanted, HandedWanted, CallHandler;
    var s' := Next(s, HandOver);
    if s.dispatch != Between && |s.dispatch.rest| > 0 {
      var h, e := s.dispatch.rest[0], s.dispatch.event;
      var c := CallHandler(s, h, e);
      HandGives(s, h, e, h.connection);
      forall id ensures HandedWanted(s', id) {
        assert HandedWanted(s, id);
        HandWanted(s, h, e, id);
        SameWanted(c, s', id);
      }
      RestLosesHead(s.dispatch.rest);
      forall g | g in s'.dispatch.rest ensures CallWanted(s', g, e) {
        assert CallWanted(s, g, e);
        CallStays(s, s', g, e);
      }
    }
  }

  lemma CallStays(s: System, s': System, h: Handler, e: Event)
    requires CallWanted(s, h, e) && s'.accepted == s.accepted && s'.joins == s.joins
    ensures CallWanted(s', h, e)
  {
  }

  lemma EndListWanted(s: System)
    requires Sound(s) && OnlyWanted(s)
    ensures OnlyWanted(Next(s, EndList))
  {
    hide Sound, CallWanted, HandedWanted, SubscribersOf;
    var s' := Next(s, EndList);
    forall id ensures HandedWanted(s', id) {
      assert HandedWanted(s, id);
      SameWanted(s, s', id);
    }
    if s'.dispatch.Everyone? && s.dispatch.Named? {
      forall h | h in s'.dispatch.rest ensures CallWanted(s', h, s'.dispatch.event) {
        SubscriberWants(s, "*", h, s'.dispatch.event);
        CallStays(s, s', h, s'.dispatch.event);
      }
    }
  }

  /** A step of one client that adds nothing to what anyone has been handed. */
  lemma OthersWanted(s: System, s': System, id: string)
    requires OnlyWanted(s) && s'.accepted == s.accepted && s'.dispatch == s.dispatch && s'.handed == s.handed
    requires s'.joins.Keys == s.joins.Keys + {id} && forall k <- s.joins :: k != id ==> s'.joins[k] == s.joins[k]
    requires id in s.joins && !s'.joins[id].moved ==> !s.joins[id].moved && s'.joins[id].investigation == s.joins[id].investigation
    requires HandedWanted(s', id)
    ensures OnlyWanted(s')
  {
    forall k ensures HandedWanted(s', k) {
      assert HandedWanted(s, k);
      if k != id { SameWanted(s, s', k); }
    }
    if s.dispatch != Between {
      forall h | h in s.dispatch.rest ensures CallWanted(s', h, s.dispatch.event) {
        assert CallWanted(s, h, s.dispatch.event);
      }
    }
  }

  lemma BeginWanted(s: System, id: string, conn: Connection)
    requires OnlyWanted(s)
    ensures OnlyWanted(Next(s, BeginConnect(id, conn)))
  {
    hide OnlyWanted, Registered;
    if id !in s.joins {
      NotHandedYet(s, id);
      OthersWanted(s, Next(s, BeginConnect(id, conn)), id);
    }
  }

  lemma NotHandedYet(s: System, id: string)
    requires OnlyWanted(s)
    ensures HandedWanted(s, id) && (id !in s.joins ==> id !in s.handed)
  {
  }

  lemma {:induction false} OfInvestigationMembers(events: seq<Event>, inv: string)
    ensures forall e <- OfInvestigation(events, inv) :: e in events && e.investigation == inv
  {
    if |events| > 0 {
      OfInvestigationMembers(events[..|events| - 1], inv);
      assert events == events[..|events| - 1] + [events[|events| - 1]];
    }
  }

  lemma HistoryAccepted(s: System, inv: string)
    requires Sound(s)
    ensures forall e <- HistoryOf(s.window, inv) :: e in s.accepted && e.investigation == inv
  {
    hide OfInvestigation, Booked, HistoryOf;
    OfInvestigationMembers(s.accepted, inv);
    assert HistoryOf(s.window, inv) == LastN(OfInvestigation(s.accepted, inv), HISTORY_LIMIT);
  }

  lemma ReadWanted(s: System, id: string)
    requires Sound(s) && OnlyWanted(s)
    ensures OnlyWanted(Next(s, ReadHistory(id)))
  {
    hide OnlyWanted, Sound, HistoryOf, Since;
    if id in s.joins && s.joins[id].phase == Acking {
      NotHandedYet(s, id);
      HistoryAccepted(s, s.joins[id].investigation);
      OthersWanted(s, Next(s, ReadHistory(id)), id);
    }
  }

  lemma HandHistoryWanted(s: System, id: string)
    requires OnlyWanted(s)
    ensures OnlyWanted(Next(s, HandHistory(id)))
  {
    hide OnlyWanted;
    if id in s.joins && s.joins[id].phase.Replaying? {
      NotHandedYet(s, id);
      var s' := Next(s, HandHistory(id));
      var pending := s.joins[id].phase.pending;
      if |pending| > 0 {
        PendingLosesHead(pending);
        assert HandedTo(s', id) == HandedTo(s, id) + [pending[0]];
        HistoryStepWanted(s, s', id);
      } else {
        OthersWanted(s, s', id);
      }
    }
  }

  lemma HistoryStepWanted(s: System, s': System, id: string)
    requires OnlyWanted(s) && s'.accepted == s.accepted && s'.dispatch == s.dispatch && id in s.joins
    requires id in s'.joins && s'.joins == s.joins[id := s.joins[id].(phase := s'.joins[id].phase)]
    requires forall k :: k != id ==> (k in s'.handed <==> k in s.handed) && (k in s.handed ==> s'.handed[k] == s.handed[k])
    requires HandedWanted(s', id)
    ensures OnlyWanted(s')
  {
    forall k ensures HandedWanted(s', k) {
      assert HandedWanted(s, k);
      if k != id { SameWanted(s, s', k); }
    }
    if s.dispatch != Between {
      forall h | h in s.dispatch.rest ensures CallWanted(s', h, s.dispatch.event) {
        assert CallWanted(s, h, s.dispatch.event);
      }
    }
  }

  lemma GoneWanted(s: System, s': System, id: string)
    requires OnlyWanted(s) && id in s.joins && s'.joins == s.joins[id := s.joins[id].(moved := true)]
    requires s'.accepted == s.accepted && s'.dispatch == s.dispatch && s'.handed == s.handed
    ensures OnlyWanted(s')
  {
    hide OnlyWanted;
    OthersWanted(s, s', id);
  }

  lemma {:induction false} ReachWanted(steps: seq<Step>)
    ensures OnlyWanted(Reach(steps))
    decreases |steps|
  {
    if |steps| > 0 {
      hide OnlyWanted, Sound, Next;
      var s := Reach(steps[..|steps| - 1]);
      ReachWanted(steps[..|steps| - 1]);
      ReachSound(steps[..|steps| - 1]);
      match steps[|steps| - 1]
      case TakeEvent(e) => TakeWanted(s, e);
      case HandOver => HandOverWanted(s);
      case EndList => EndListWanted(s);
      case BeginConnect(id, conn) => BeginWanted(s, id, conn);
      case ReadHistory(id) => ReadWanted(s, id);
      case HandHistory(id) => HandHistoryWanted(s, id);
      case Leave(id) => LeaveWanted(s, id);
      case MoveTo(id, inv) => MoveToWanted(s, id, inv);
    }
  }

  lemma LeaveWanted(s: System, id: string)
    requires OnlyWanted(s)
    ensures OnlyWanted(Next(s, Leave(id)))
  {
    hide OnlyWanted, Disconnected;
    if id in s.joins { GoneWanted(s, Next(s, Leave(id)), id); }
  }

  lemma MoveToWanted(s: System, id: string, inv: string)
    requires OnlyWanted(s)
    ensures OnlyWanted(Next(s, MoveTo(id, inv)))
  {
    hide OnlyWanted, Moved;
    if id in s.joins { GoneWanted(s, Next(s, MoveTo(id, inv)), id); }
  }

  /** In every state that is reached, a connection that has stayed has been handed accepted events of its investigation only. */
  lemma HandedOnlyWanted(steps: seq<Step>, id: string, e: Event)
    requires Stays(Reach(steps), id) && e in HandedTo(Reach(steps), id)
    ensures e in Reach(steps).accepted
    ensures e.investigation == Reach(steps).joins[id].investigation || Reach(steps).joins[id].investigation == "*"
  {
    hide Reach;
    ReachWanted(steps);
    assert HandedWanted(Reach(steps), id);
  }

  // ---- What is recorded of a connection ----

  /** As many messages as events handed over, and the largest number among them and the one it asked from. */
  ghost predicate Tallied(s: System, id: string) {
    && (id in s.handed || id in s.hub.connections ==> id in s.joins)
    && (id in s.hub.connections ==>
         && s.hub.connections[id].messageCount == |HandedTo(s, id)|
         && Largest(s.hub.connections[id].lastSeq, s.joins[id].since, HandedTo(s, id)))
  }

  ghost predicate Largest(n: int, since: int, events: seq<Event>) {
    && since <= n && (forall e <- events :: e.sequenceNum <= n)
    && (n == since || exists e <- events :: e.sequenceNum == n)
  }

  lemma LargestNext(n: int, since: int, events: seq<Event>, e: Event)
    requires Largest(n, since, events)
    ensures Largest(if n < e.sequenceNum then e.sequenceNum else n, since, events + [e])
  {
    assert e in events + [e];
    if f :| f in events && f.sequenceNum == n {
      assert f in events + [e];
    }
  }

  lemma SameTallied(s: System, s': System, id: string)
    requires Tallied(s, id)
    requires (id in s'.handed <==> id in s.handed) && (id in s.handed ==> s'.handed[id] == s.handed[id])
    requires id in s.joins ==> id in s'.joins && s'.joins[id].since == s.joins[id].since
    requires id in s'.hub.connections ==>
      && id in s.hub.connections
      && s'.hub.connections[id].(investigation := "") == s.hub.connections[id].(investigation := "")
    ensures Tallied(s', id)
  {
    hide Largest;
    assert HandedTo(s', id) == HandedTo(s, id);
  }

  lemma HandTallied(s: System, h: string, e: Event, id: string)
    requires Tallied(s, id) && h in s.joins
    ensures Tallied(Hand(s, h, e), id)
  {
    hide Largest;
    var s' := Hand(s, h, e);
    if id == h {
      assert HandedTo(s', id) == HandedTo(s, id) + [e];
      if id in s.hub.connections {
        LargestNext(s.hub.connections[id].lastSeq, s.joins[id].since, HandedTo(s, id), e);
      }
    } else {
      SameTallied(s, s', id);
    }
  }

  lemma BeginTallied(s: System, joining: string, conn: Connection, id: string)
    requires Tallied(s, id)
    ensures Tallied(Next(s, BeginConnect(joining, conn)), id)
  {
    var s' := Next(s, BeginConnect(joining, conn));
    if joining !in s.joins {
      if id == joining {
        assert HandedTo(s', id) == [];
      } else {
        SameTallied(s, s', id);
      }
    }
  }

  lemma HandOverTallied(s: System, id: string)
    requires (forall k :: Tallied(s, k))
    ensures Tallied(Next(s, HandOver), id)
  {
    hide Hand, Tallied;
    var s' := Next(s, HandOver);
    assert Tallied(s, id);
    if s.dispatch != Between && |s.dispatch.rest| > 0 {
      var h, e := s.dispatch.rest[0].connection, s.dispatch.event;
      if h in s.hub.connections {
        ConnectedJoined(s, h);
        HandTallied(s, h, e, id);
        SameTallied(Hand(s, h, e), s', id);
      } else {
        SameTallied(s, s', id);
      }
    }
  }

  lemma ConnectedJoined(s: System, id: string)
    requires Tallied(s, id) && id in s.hub.connections
    ensures id in s.joins
  {
  }

  lemma HandHistoryTallied(s: System, h: string, id: string)
    requires Tallied(s, id)
    ensures Tallied(Next(s, HandHistory(h)), id)
  {
    hide Hand, Tallied;
    var s' := Next(s, HandHistory(h));
    if h in s.joins && s.joins[h].phase.Replaying? {
      var pending := s.joins[h].phase.pending;
      if |pending| > 0 {
        HandTallied(s, h, pending[0], id);
        HandKeepsJoins(s, h, pending[0]);
        SameTallied(Hand(s, h, pending[0]), s', id);
      } else {
        SameTallied(s, s', id);
      }
    }
  }

  lemma HandKeepsJoins(s: System, h: string, e: Event)
    ensures Hand(s, h, e).joins == s.joins
  {
  }

  lemma {:induction false} ReachTallied(steps: seq<Step>, id: string)
    ensures Tallied(Reach(steps), id)
    decreases |steps|
  {
    if |steps| > 0 {
      hide Tallied, Next;
      var s := Reach(steps[..|steps| - 1]);
      forall k ensures Tallied(s, k) {
        ReachTallied(steps[..|steps| - 1], k);
      }
      match steps[|steps| - 1]
      case TakeEvent(_) => QuietStep(s, steps[|steps| - 1], id);
      case HandOver => HandOverTallied(s, id);
      case EndList => QuietStep(s, steps[|steps| - 1], id);
      case BeginConnect(joining, conn) => BeginTallied(s, joining, conn, id);
      case ReadHistory(_) => QuietStep(s, steps[|steps| - 1], id);
      case HandHistory(h) => HandHistoryTallied(s, h, id);
      case Leave(_) => QuietStep(s, steps[|steps| - 1], id);
      case MoveTo(_, _) => QuietStep(s, steps[|steps| - 1], id);
    }
  }

  lemma QuietStep(s: System, step: Step, id: string)
    requires Tallied(s, id) && !step.HandOver? && !step.HandHistory? && !step.BeginConnect?
    ensures Tallied(Next(s, step), id)
  {
    hide Tallied, Unsubscribed, Subscribed, Accept;
    SameTallied(s, Next(s, step), id);
  }

  /**
   What is recorded of a live connection: it has been sent as many messages as it has been handed
   events, and its last number is the largest among theirs and the one it asked from.
   */
  lemma CountsAreRight(steps: seq<Step>, id: string)
    requires id in Reach(steps).hub.connections
    ensures var s := Reach(steps);
            var conn, events := s.hub.connections[id], HandedTo(s, id);
            && id in s.joins && conn.messageCount == |events|
            && conn.lastSeq >= s.joins[id].since && (forall e <- events :: e.sequenceNum <= conn.lastSeq)
            && (conn.lastSeq == s.joins[id].since || exists e <- events :: e.sequenceNum == conn.lastSeq)
  {
    hide Reach;
    ReachTallied(steps, id);
  }

  // ---- Clients that watch every investigation ----

  /** The event being handed out is still on its way to the recorded handler of `id` under "*". */
  ghost predicate OnItsWay(s: System, id: string) {
    match s.dispatch
    case Between => false
    case Named(_, _) => true
    case Everyone(_, rest) => id in s.hub.handlers && s.hub.handlers[id] in rest
  }

  ghost predicate Watches(s: System, id: string) {
    Stays(s, id) && s.joins[id].investigation == "*"
  }

  ghost predicate AllSeen(s: System, id: string) {
    Watches(s, id) ==>
      forall k :: s.joins[id].joinedAt <= k < |s.accepted| ==>
        s.accepted[k] in HandedTo(s, id) || (k == |s.accepted| - 1 && OnItsWay(s, id))
  }

  ghost predicate DispatchesLast(s: System) {
    s.dispatch != Between ==> |s.accepted| > 0 && s.dispatch.event == s.accepted[|s.accepted| - 1]
  }

  lemma SameSeen(s: System, s': System, id: string)
    requires AllSeen(s, id) && s'.accepted == s.accepted
    requires Watches(s', id) ==> Watches(s, id) && s'.joins[id].joinedAt == s.joins[id].joinedAt
    requires forall e <- HandedTo(s, id) :: e in HandedTo(s', id)
    requires Watches(s', id) && OnItsWay(s, id) ==>
      OnItsWay(s', id) || (|s.accepted| > 0 && s.accepted[|s.accepted| - 1] in HandedTo(s', id))
    ensures AllSeen(s', id)
  {
    hide HandedTo, OnItsWay;
  }

  lemma HandOverSeen(s: System, id: string)
    requires Sound(s) && DispatchesLast(s) && AllSeen(s, id)
    ensures AllSeen(Next(s, HandOver), id) && DispatchesLast(Next(s, HandOver))
  {
    hide Sound, CallHandler, HandedTo, AllSeen;
    var s' := Next(s, HandOver);
    if s.dispatch != Between && |s.dispatch.rest| > 0 {
      var h, e := s.dispatch.rest[0], s.dispatch.event;
      HandGives(s, h, e, id);
      var c := CallHandler(s, h, e);
      SameHanded(c, s', id);
      RestLosesHead(s.dispatch.rest);
      if Watches(s', id) {
        WatcherOnBus(s, id);
      }
      SameSeen(s, s', id);
    }
  }

  lemma WatcherOnBus(s: System, id: string)
    requires Sound(s) && Stays(s, id)
    ensures id in s.hub.connections && id in s.hub.handlers && s.hub.handlers[id].connection == id
    ensures s.hub.handlers[id] in SubscribersOf(s.hub.subscribers, s.joins[id].investigation)
  {
    hide HistoryWindow;
    assert Gapless(s, id);
    RecordedOnBus(s.hub, id);
  }

  lemma EndListSeen(s: System, id: string)
    requires Sound(s) && DispatchesLast(s) && AllSeen(s, id)
    ensures AllSeen(Next(s, EndList), id) && DispatchesLast(Next(s, EndList))
  {
    hide Sound, AllSeen, SubscribersOf;
    var s' := Next(s, EndList);
    SameHanded(s, s', id);
    if Watches(s', id) {
      WatcherOnBus(s, id);
    }
    SameSeen(s, s', id);
  }

  lemma TakeSeen(s: System, e: Event, id: string)
    requires AllSeen(s, id)
    ensures AllSeen(Next(s, TakeEvent(e)), id)
  {
    hide Accept, SubscribersOf;
    SameHanded(s, Next(s, TakeEvent(e)), id);
  }

  /** Any step of one client: the hub keeps the handlers of the others. */
  lemma ClientSeen(s: System, step: Step, id: string)
    requires Sound(s) && AllSeen(s, id)
    requires step.BeginConnect? || step.ReadHistory? || step.HandHistory? || step.Leave? || step.MoveTo?
    ensures AllSeen(Next(s, step), id)
  {
    hide Sound, AllSeen, Unsubscribed, Subscribed, HandedTo;
    var s' := Next(s, step);
    ClientHands(s, step, id);
    if step.BeginConnect? && step.id == id && id !in s.joins {
      JustJoined(s, id, step.conn);
    } else {
      SameSeen(s, s', id);
    }
  }

  lemma ClientHands(s: System, step: Step, id: string)
    requires !step.TakeEvent? && !step.HandOver? && !step.EndList?
    ensures forall e <- HandedTo(s, id) :: e in HandedTo(Next(s, step), id)
  {
    hide Unsubscribed, Subscribed, Delivered;
  }

  lemma JustJoined(s: System, id: string, conn: Connection)
    requires id !in s.joins
    ensures AllSeen(Next(s, BeginConnect(id, conn)), id)
  {
    hide HandedTo;
  }

  lemma StepSeen(s: System, step: Step, id: string)
    requires Sound(s) && AllSeen(s, id) && DispatchesLast(s)
    ensures AllSeen(Next(s, step), id) && DispatchesLast(Next(s, step))
  {
    hide Sound, AllSeen, Next;
    match step
    case TakeEvent(e) => TakeSeen(s, e, id); TakesLast(s, e);
    case HandOver => HandOverSeen(s, id);
    case EndList => EndListSeen(s, id);
    case _ => ClientSeen(s, step, id); ClientDispatches(s, step);
  }

  lemma NoneSeen(id: string)
    ensures AllSeen(Reach([]), id) && DispatchesLast(Reach([]))
  {
  }

  lemma {:induction false} ReachSeen(steps: seq<Step>, id: string)
    ensures AllSeen(Reach(steps), id) && DispatchesLast(Reach(steps))
    decreases |steps|
  {
    hide Sound, AllSeen, DispatchesLast, Next;
    if |steps| > 0 {
      var s := Reach(steps[..|steps| - 1]);
      ReachSeen(steps[..|steps| - 1], id);
      ReachSound(steps[..|steps| - 1]);
      StepSeen(s, steps[|steps| - 1], id);
    } else {
      assert steps == [];
      NoneSeen(id);
    }
  }

  lemma TakesLast(s: System, e: Event)
    requires DispatchesLast(s)
    ensures DispatchesLast(Next(s, TakeEvent(e)))
  {
    hide Accept, SubscribersOf;
  }

  lemma ClientDispatches(s: System, step: Step)
    requires !step.TakeEvent? && !step.HandOver? && !step.EndList?
    ensures Next(s, step).dispatch == s.dispatch && Next(s, step).accepted == s.accepted
  {
  }

  /** Between events, a connection that asked for "*" has been handed every event accepted since it joined, whatever its investigation. */
  lemma WatchersSeeAll(steps: seq<Step>, id: string, k: nat)
    requires var s := Reach(steps);
             Stays(s, id) && s.joins[id].investigation == "*" && s.dispatch == Between && s.joins[id].joinedAt <= k < |s.accepted|
    ensures Reach(steps).accepted[k] in HandedTo(Reach(steps), id)
  {
    hide Reach, HandedTo;
    ReachSeen(steps, id);
  }

  /** What is read for such a connection when it joins: nothing of any real investigation, whatever has been accepted. */
  lemma WatchersGetNoHistory(steps: seq<Step>, since: int)
    requires forall e <- Reach(steps).accepted :: e.investigation != "*"
    ensures Since(HistoryOf(Reach(steps).window, "*"), since) == []
  {
    hide Reach, HistoryOf, Since, Sound;
    ReachSound(steps);
    HistoryAccepted(Reach(steps), "*");
    Inhabited(Since(HistoryOf(Reach(steps).window, "*"), since));
  }

  lemma Inhabited(events: seq<Event>)
    ensures events == [] || exists e :: e in events
  {
    if events != [] {
      assert events[0] in events;
    }
  }
}
