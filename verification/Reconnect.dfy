/**
 Clients that connect while events are being dispatched.  A step is what runs between two awaits:
 the dispatcher takes an event, or hands it to one handler; a connecting client is registered, has
 the history read for it, or is handed one event of that history; a client leaves or moves.  The
 steps of a run may come in any order.
 */
module Reconnect {
  import opened Events
  import opened EventBus
  import opened WSManager

  datatype Phase = Acking | Replaying(pending: seq<Event>) | Connected

  /** A call of `connect`: what was asked, how far it is, and when its parts happened. */
  datatype Join = Join(investigation: string, since: int, phase: Phase, joinedAt: nat, readAt: nat, moved: bool)

  datatype Dispatch =
    | Between
    | Named(event: Event, rest: seq<Handler>)
    | Everyone(event: Event, rest: seq<Handler>)

  datatype System = System(
    hub: Hub, window: Window, dispatch: Dispatch, joins: map<string, Join>,
    accepted: seq<Event>, handed: map<string, seq<Event>>)

  datatype Step =
    | TakeEvent(e: Event)
    | HandOver
    | EndList
    | BeginConnect(id: string, conn: Connection)
    | ReadHistory(id: string)
    | HandHistory(id: string)
    | Leave(id: string)
    | MoveTo(id: string, inv: string)

  function HandedTo(s: System, id: string): seq<Event> {
    if id in s.handed then s.handed[id] else []
  }

  function Hand(s: System, id: string, e: Event): System {
    s.(handed := s.handed[id := HandedTo(s, id) + [e]], hub := Delivered(s.hub, id, e))
  }

  /** The handler looks its connection up when it runs. */
  function CallHandler(s: System, h: Handler, e: Event): System {
    if h.connection in s.hub.connections then Hand(s, h.connection, e) else s
  }

  /** One step; a step that is not possible changes nothing. */
  function Next(s: System, step: Step): System {
    match step
    case TakeEvent(e) =>
      if s.dispatch != Between || e.key in s.window.seen then s
      else
        s.(window := Accept(s.window, e), accepted := s.accepted + [e],
           dispatch := Named(e, SubscribersOf(s.hub.subscribers, e.investigation)))
    case HandOver =>
      (match s.dispatch
       case Between => s
       case Named(e, rest) =>
         if |rest| == 0 then s else CallHandler(s, rest[0], e).(dispatch := Named(e, rest[1..]))
       case Everyone(e, rest) =>
         if |rest| == 0 then s else CallHandler(s, rest[0], e).(dispatch := Everyone(e, rest[1..])))
    case EndList =>
      (match s.dispatch
       case Between => s
       case Named(e, rest) =>
         if |rest| > 0 then s else s.(dispatch := Everyone(e, SubscribersOf(s.hub.subscribers, "*")))
       case Everyone(e, rest) => if |rest| > 0 then s else s.(dispatch := Between))
    case BeginConnect(id, conn) =>
      if id in s.joins then s
      else
        s.(hub := Registered(s.hub, id, conn.(messageCount := 0)),
           joins := s.joins[id := Join(conn.investigation, conn.lastSeq, Acking, |s.accepted|, 0, false)])
    case ReadHistory(id) =>
      if id !in s.joins || s.joins[id].phase != Acking then s
      else
        var j := s.joins[id];
        s.(joins := s.joins[id := j.(
          phase := Replaying(Since(HistoryOf(s.window, j.investigation), j.since)), readAt := |s.accepted|)])
    case HandHistory(id) =>
      if id !in s.joins || !s.joins[id].phase.Replaying? then s
      else
        var j := s.joins[id];
        if |j.phase.pending| == 0 then s.(joins := s.joins[id := j.(phase := Connected)])
        else Hand(s, id, j.phase.pending[0]).(joins := s.joins[id := j.(phase := Replaying(j.phase.pending[1..]))])
    case Leave(id) =>
      if id !in s.joins then s
      else s.(hub := Disconnected(s.hub, id), joins := s.joins[id := s.joins[id].(moved := true)])
    case MoveTo(id, inv) =>
      if id !in s.joins then s
      else s.(hub := Moved(s.hub, id, inv), joins := s.joins[id := s.joins[id].(moved := true)])
  }

  function Reach(steps: seq<Step>): System {
    if |steps| == 0 then System(Hub(map[], map[], map[], 0), Window([], map[]), Between, map[], [], map[])
    else Next(Reach(steps[..|steps| - 1]), steps[|steps| - 1])
  }

  // ---- What every step keeps ----

  /** The events of `inv` that were in the history window after `n` events had been accepted. */
  function WindowAt(accepted: seq<Event>, n: nat, inv: string): seq<Event>
    requires n <= |accepted|
  {
    LastN(OfInvestigation(accepted[..n], inv), HISTORY_LIMIT)
  }

  /** The dispatcher will still call the recorded handler of `id` for the event it is handing out. */
  ghost predicate Awaited(s: System, id: string) {
    s.dispatch.Named? && id in s.hub.handlers && s.hub.handlers[id] in s.dispatch.rest
  }

  ghost predicate Stays(s: System, id: string) {
    id in s.joins && !s.joins[id].moved
  }

  /** A connection that stays is registered where it asked to be. */
  ghost predicate InPlace(s: System, id: string) {
    Stays(s, id) ==>
      && id in s.hub.connections && s.hub.connections[id].investigation == s.joins[id].investigation
      && s.joins[id].joinedAt <= |s.accepted|
      && (s.joins[id].phase != Acking ==> s.joins[id].joinedAt <= s.joins[id].readAt <= |s.accepted|)
  }

  /** It has been handed every event of its investigation accepted since it joined, but perhaps the one being handed out. */
  ghost predicate LiveCovered(s: System, id: string) {
    Stays(s, id) ==>
      forall k :: s.joins[id].joinedAt <= k < |s.accepted| && s.accepted[k].investigation == s.joins[id].investigation ==>
        s.accepted[k] in HandedTo(s, id) || (k == |s.accepted| - 1 && Awaited(s, id))
  }

  /** It has been, or is being, handed what the history window held when it was read. */
  ghost predicate HistoryCovered(s: System, id: string) {
    Stays(s, id) && s.joins[id].phase != Acking && s.joins[id].readAt <= |s.accepted| ==>
      var j := s.joins[id];
      forall e :: e in WindowAt(s.accepted, j.readAt, j.investigation) && e.sequenceNum >= j.since ==>
        e in HandedTo(s, id) || (j.phase.Replaying? && e in j.phase.pending)
  }

  ghost predicate Gapless(s: System, id: string) {
    InPlace(s, id) && LiveCovered(s, id) && HistoryCovered(s, id)
  }

  ghost predicate Sound(s: System) {
    && Booked(s.hub)
    && HistoryWindow(s.window, s.accepted)
    && (forall id <- s.hub.connections.Keys :: id in s.joins)
    && (s.dispatch.Named? ==> |s.accepted| > 0 && s.dispatch.event == s.accepted[|s.accepted| - 1])
    && (forall id <- s.joins.Keys :: Gapless(s, id))
  }

  lemma WindowGrows(accepted: seq<Event>, e: Event, n: nat, inv: string)
    requires n <= |accepted|
    ensures WindowAt(accepted + [e], n, inv) == WindowAt(accepted, n, inv)
  {
    assert (accepted + [e])[..n] == accepted[..n];
  }

  lemma TakeKeeps(s: System, e: Event)
    requires Sound(s)
    ensures Sound(Next(s, TakeEvent(e)))
  {
    hide Accept, OfInvestigation, Booked, HistoryWindow;
    var s' := Next(s, TakeEvent(e));
    if s' != s {
      AcceptHistory(s.window, s.accepted, e);
      forall id <- s'.joins.Keys ensures Gapless(s', id) {
        assert Gapless(s, id);
        if Stays(s, id) {
          var j := s.joins[id];
          if j.phase != Acking {
            WindowGrows(s.accepted, e, j.readAt, j.investigation);
          }
          RecordedOnBus(s.hub, id);
        }
      }
    }
  }

  lemma RecordedOnBus(hub: Hub, id: string)
    requires Booked(hub) && id in hub.connections
    ensures id in hub.handlers && hub.handlers[id].connection == id
    ensures hub.handlers[id] in SubscribersOf(hub.subscribers, hub.connections[id].investigation)
  {
  }

  /** The hub still has `id` where it was, with the same handler. */
  ghost predicate SamePlace(hub: Hub, hub': Hub, id: string) {
    && (id in hub.connections ==> id in hub'.connections && hub'.connections[id].investigation == hub.connections[id].investigation)
    && (id in hub.handlers ==> id in hub'.handlers && hub'.handlers[id] == hub.handlers[id])
  }

  /** What is left to show for a step that accepts nothing: who is where, and who has been handed what. */
  ghost predicate Frame(s: System, s': System, id: string) {
    && s'.accepted == s.accepted && s'.window == s.window
    && SamePlace(s.hub, s'.hub, id)
    && (forall e :: e in HandedTo(s, id) ==> e in HandedTo(s', id))
  }

  lemma HandGives(s: System, h: Handler, e: Event, id: string)
    ensures var s' := CallHandler(s, h, e);
            && Frame(s, s', id) && s'.joins == s.joins && s'.dispatch == s.dispatch
            && s'.hub.connections.Keys == s.hub.connections.Keys
            && (h.connection == id && id in s.hub.connections ==> e in HandedTo(s', id))
  {
    if h.connection in s.hub.connections {
      var s' := CallHandler(s, h, e);
      assert HandedTo(s', h.connection) == HandedTo(s, h.connection) + [e];
    }
  }

  lemma HandBooked(s: System, h: Handler, e: Event)
    requires Booked(s.hub)
    ensures Booked(CallHandler(s, h, e).hub)
  {
    ActKeeps(s.hub, Deliver(h.connection, e));
  }

  lemma HandOverKeeps(s: System)
    requires Sound(s)
    ensures Sound(Next(s, HandOver))
  {
    hide OfInvestigation, Booked, HistoryWindow, CallHandler, HandedTo;
    var s' := Next(s, HandOver);
    if s.dispatch != Between && |s.dispatch.rest| > 0 {
      var h, e := s.dispatch.rest[0], s.dispatch.event;
      HandBooked(s, h, e);
      HandGives(s, h, e, h.connection);
      var c := CallHandler(s, h, e);
      forall id ensures HandedTo(s', id) == HandedTo(c, id) { SameHanded(c, s', id); }
      forall id <- s'.joins.Keys ensures Gapless(s', id) {
        assert Gapless(s, id);
        HandGives(s, h, e, id);
        RestLosesHead(s.dispatch.rest);
        if Stays(s, id) {
          RecordedOnBus(s.hub, id);
        }
      }
    }
  }

  lemma SameHanded(s: System, s': System, id: string)
    requires s.handed == s'.handed
    ensures HandedTo(s, id) == HandedTo(s', id)
  {
  }

  lemma RestLosesHead(rest: seq<Handler>)
    requires |rest| > 0
    ensures forall h :: h in rest ==> h == rest[0] || h in rest[1..]
  {
  }

  lemma EndListKeeps(s: System)
    requires Sound(s)
    ensures Sound(Next(s, EndList))
  {
    hide OfInvestigation, Booked, HistoryWindow;
    var s' := Next(s, EndList);
    forall id <- s'.joins.Keys ensures Gapless(s', id) {
      assert Gapless(s, id);
    }
  }

  lemma BeginKeeps(s: System, id: string, conn: Connection)
    requires Sound(s)
    ensures Sound(Next(s, BeginConnect(id, conn)))
  {
    hide OfInvestigation, Booked, HistoryWindow, Subscribed;
    var s' := Next(s, BeginConnect(id, conn));
    if id !in s.joins {
      RegisterKeeps(s.hub, id, conn.(messageCount := 0));
      forall other <- s'.joins.Keys ensures Gapless(s', other) {
        if other != id {
          assert Gapless(s, other);
        }
      }
    }
  }

  lemma ReadKeepsOther(s: System, id: string, other: string)
    requires Gapless(s, other) && other != id
    ensures Gapless(Next(s, ReadHistory(id)), other)
  {
    hide OfInvestigation, WindowAt, Since;
    SameHanded(s, Next(s, ReadHistory(id)), other);
  }

  /** What is read is what the window holds at that moment. */
  lemma ReadKeepsReader(s: System, id: string)
    requires Sound(s) && id in s.joins && s.joins[id].phase == Acking
    ensures Gapless(Next(s, ReadHistory(id)), id)
  {
    hide OfInvestigation, Booked, LastN, Since;
    assert Gapless(s, id);
    assert s.accepted[..|s.accepted|] == s.accepted;
    SameHanded(s, Next(s, ReadHistory(id)), id);
  }

  lemma ReadKeeps(s: System, id: string)
    requires Sound(s)
    ensures Sound(Next(s, ReadHistory(id)))
  {
    hide OfInvestigation, Booked, HistoryWindow, Gapless;
    var s' := Next(s, ReadHistory(id));
    if id in s.joins && s.joins[id].phase == Acking {
      ReadKeepsReader(s, id);
      forall other <- s'.joins.Keys ensures Gapless(s', other) {
        if other != id {
          ReadKeepsOther(s, id, other);
        }
      }
    }
  }

  lemma HandHistoryOther(s: System, id: string, other: string)
    requires Gapless(s, other) && other != id
    ensures Gapless(Next(s, HandHistory(id)), other)
  {
    hide OfInvestigation, WindowAt;
    assert HandedTo(Next(s, HandHistory(id)), other) == HandedTo(s, other);
  }

  lemma HandHistoryReader(s: System, id: string)
    requires Gapless(s, id) && id in s.joins && s.joins[id].phase.Replaying?
    ensures Gapless(Next(s, HandHistory(id)), id)
  {
    hide OfInvestigation, WindowAt;
    var s' := Next(s, HandHistory(id));
    var pending := s.joins[id].phase.pending;
    if |pending| > 0 {
      assert HandedTo(s', id) == HandedTo(s, id) + [pending[0]];
      PendingLosesHead(pending);
    }
  }

  lemma HandHistoryKeeps(s: System, id: string)
    requires Sound(s)
    ensures Sound(Next(s, HandHistory(id)))
  {
    hide OfInvestigation, Booked, HistoryWindow, Gapless;
    var s' := Next(s, HandHistory(id));
    if id in s.joins && s.joins[id].phase.Replaying? {
      var pending := s.joins[id].phase.pending;
      if |pending| > 0 {
        ActKeeps(s.hub, Deliver(id, pending[0]));
      }
      HandHistoryReader(s, id);
      forall other <- s'.joins.Keys ensures Gapless(s', other) {
        if other != id { HandHistoryOther(s, id, other); }
      }
    }
  }

  lemma PendingLosesHead(pending: seq<Event>)
    requires |pending| > 0
    ensures forall e :: e in pending ==> e == pending[0] || e in pending[1..]
  {
  }

  lemma LeaveKeeps(s: System, id: string)
    requires Sound(s)
    ensures Sound(Next(s, Leave(id)))
  {
    hide OfInvestigation, Booked, HistoryWindow, Unsubscribed;
    DisconnectKeeps(s.hub, id);
    var s' := Next(s, Leave(id));
    forall other <- s'.joins.Keys ensures Gapless(s', other) {
      assert Gapless(s, other);
    }
  }

  lemma MoveToKeeps(s: System, id: string, inv: string)
    requires Sound(s)
    ensures Sound(Next(s, MoveTo(id, inv)))
  {
    hide OfInvestigation, Booked, HistoryWindow, Unsubscribed, Subscribed;
    MoveKeeps(s.hub, id, inv);
    var s' := Next(s, MoveTo(id, inv));
    forall other <- s'.joins.Keys ensures Gapless(s', other) {
      assert Gapless(s, other);
    }
  }

  lemma {:induction false} ReachSound(steps: seq<Step>)
    ensures Sound(Reach(steps))
    decreases |steps|
  {
    hide Sound, Next;
    if |steps| == 0 {
      StartSound();
    } else {
      var s := Reach(steps[..|steps| - 1]);
      ReachSound(steps[..|steps| - 1]);
      match steps[|steps| - 1]
      case TakeEvent(e) => TakeKeeps(s, e);
      case HandOver => HandOverKeeps(s);
      case EndList => EndListKeeps(s);
      case BeginConnect(id, conn) => BeginKeeps(s, id, conn);
      case ReadHistory(id) => ReadKeeps(s, id);
      case HandHistory(id) => HandHistoryKeeps(s, id);
      case Leave(id) => LeaveKeeps(s, id);
      case MoveTo(id, inv) => MoveToKeeps(s, id, inv);
    }
  }

  lemma StartSound()
    ensures Sound(Reach([]))
  {
    EmptyBooked();
    NothingFed();
  }

  /**
   No gap, whatever the order of steps: once `connect` is done and the dispatcher is between events,
   a connection that has stayed has been handed every accepted event of its investigation from the
   sequence number it asked for on, except those accepted before it was registered that had left
   the history window when the history was read.
   */
  lemma NoGap(steps: seq<Step>, id: string, k: nat)
    requires var s := Reach(steps); Stays(s, id) && s.joins[id].phase == Connected && s.dispatch == Between
    requires k < |Reach(steps).accepted|
    ensures var s := Reach(steps);
            var j, e := s.joins[id], s.accepted[k];
            && j.joinedAt <= j.readAt <= |s.accepted|
            && (e.investigation == j.investigation && e.sequenceNum >= j.since
                && (k >= j.joinedAt || e in WindowAt(s.accepted, j.readAt, j.investigation))
                ==> e in HandedTo(s, id))
  {
    ReachSound(steps);
    hide OfInvestigation, Booked, HistoryWindow, WindowAt, Reach;
    assert Gapless(Reach(steps), id);
  }
}
