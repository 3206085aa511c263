/**
 The connection manager: which connections are live, which handler of each is on the bus, and what
 happens to them when clients connect, move to another investigation, or go away.
 */
module WSManager {
  import opened Base
  import opened Events
  import opened EventBus

  datatype Connection = Connection(investigation: string, actorRole: string, lastSeq: int, messageCount: nat)

  /** The registry: connections, the recorded handler of each, the bus's subscribers, and a supply of new handlers. */
  datatype Hub = Hub(
    connections: map<string, Connection>, handlers: map<string, Handler>, subscribers: Subscribers, serial: nat)

  /** A connection is recorded, and a new handler of it is subscribed. */
  function Registered(hub: Hub, id: string, conn: Connection): Hub {
    var h := Handler(id, hub.serial);
    Hub(hub.connections[id := conn], hub.handlers[id := h],
        Subscribed(hub.subscribers, conn.investigation, h), hub.serial + 1)
  }

  function Disconnected(hub: Hub, id: string): Hub {
    if id !in hub.connections then hub
    else
      Hub(hub.connections - {id}, hub.handlers - {id},
          if id in hub.handlers then Unsubscribed(hub.subscribers, hub.connections[id].investigation, hub.handlers[id])
          else hub.subscribers,
          hub.serial)
  }

  /** The client asks for another investigation: subscribe to it, then unsubscribe from the old one. */
  function Moved(hub: Hub, id: string, inv: string): Hub {
    if id !in hub.connections || inv == "" || inv == hub.connections[id].investigation then hub
    else
      var old' := hub.connections[id];
      var h := Handler(id, hub.serial);
      var subs := Subscribed(hub.subscribers, inv, h);
      Hub(hub.connections[id := old'.(investigation := inv)], hub.handlers[id := h],
          if id in hub.handlers then Unsubscribed(subs, old'.investigation, hub.handlers[id]) else subs,
          hub.serial + 1)
  }

  class Manager {
    var connections: map<string, Connection>
    var handlers: map<string, Handler>
    var serial: nat
    const bus: InProcessEventBus

    constructor (bus: InProcessEventBus)
      ensures this.bus == bus && connections == map[] && handlers == map[] && serial == 0
    {
      this.bus := bus;
      connections, handlers, serial := map[], map[], 0;
    }

    ghost function Registry(): Hub
      reads this, bus
    {
      Hub(connections, handlers, bus.subscribers, serial)
    }

    /** A new handler, recorded as the one of its connection. */
    method MakeHandler(id: string) returns (h: Handler)
      modifies this`handlers, this`serial
      ensures h == Handler(id, old(serial)) && serial == old(serial) + 1 && handlers == old(handlers)[id := h]
    {
      h := Handler(id, serial);
      serial := serial + 1;
      handlers := handlers[id := h];
    }

    /** The part of `connect` before its first delivery. */
    method BeginConnect(id: string, inv: string, role: string, lastSeq: int)
      modifies this, bus`subscribers
      ensures Registry() == Registered(old(Registry()), id, Connection(inv, role, lastSeq, 0))
    {
      connections := connections[id := Connection(inv, role, lastSeq, 0)];
      var h := MakeHandler(id);
      bus.Subscribe(inv, h);
    }

    method Disconnect(id: string)
      modifies this, bus`subscribers
      ensures Registry() == Disconnected(old(Registry()), id)
    {
      if id !in connections { return; }
      var conn := connections[id];
      connections := connections - {id};
      if id in handlers {
        var h := handlers[id];
        handlers := handlers - {id};
        bus.Unsubscribe(conn.investigation, h);
      } else {
        assert handlers - {id} == handlers;
      }
    }

    method SubscribeMessage(id: string, inv: string)
      modifies this, bus`subscribers
      ensures Registry() == Moved(old(Registry()), id, inv)
    {
      if id !in connections { return; }
      var conn := connections[id];
      if inv != "" && inv != conn.investigation {
        var oldInv := conn.investigation;
        var oldHandler := if id in handlers then Some(handlers[id]) else None;
        var h := MakeHandler(id);
        bus.Subscribe(inv, h);
        connections := connections[id := conn.(investigation := inv)];
        if oldHandler.Some? {
          bus.Unsubscribe(oldInv, oldHandler.value);
        }
      }
    }

    /** What a delivery records of the connection. */
    method RecordDelivery(id: string, e: Event)
      requires id in connections
      modifies this`connections
      ensures connections == old(connections)[id := old(connections)[id].(
                lastSeq := if old(connections)[id].lastSeq < e.sequenceNum then e.sequenceNum else old(connections)[id].lastSeq,
                messageCount := old(connections)[id].messageCount + 1)]
      ensures handlers == old(handlers) && serial == old(serial) && Registry() == Delivered(old(Registry()), id, e)
    {
      var conn := connections[id];
      conn := conn.(lastSeq := if conn.lastSeq < e.sequenceNum then e.sequenceNum else conn.lastSeq);
      conn := conn.(messageCount := conn.messageCount + 1);
      connections := connections[id := conn];
    }
  }

  // ---- Bookkeeping ----

  /** Every live connection has a recorded handler of its own, made earlier. */
  ghost predicate Recorded(hub: Hub) {
    && hub.handlers.Keys == hub.connections.Keys
    && forall id <- hub.connections.Keys :: hub.handlers[id].connection == id && hub.handlers[id].serial < hub.serial
  }

  /** The recorded handler is on the bus, under the connection's investigation. */
  ghost predicate OnBus(hub: Hub)
    requires Recorded(hub)
  {
    forall id <- hub.connections.Keys ::
      hub.handlers[id] in SubscribersOf(hub.subscribers, hub.connections[id].investigation)
  }

  /** No other handler is on the bus. */
  ghost predicate NoStray(hub: Hub) {
    forall inv, h :: h in SubscribersOf(hub.subscribers, inv) ==> BelongsTo(hub, inv, h)
  }

  /** No handler is twice in a list. */
  ghost predicate NoTwice(m: Subscribers) {
    forall inv :: Distinct(SubscribersOf(m, inv))
  }

  /** Each live connection has exactly one handler on the bus, the recorded one, where it belongs. */
  ghost predicate Booked(hub: Hub) {
    Recorded(hub) && OnBus(hub) && NoStray(hub) && NoTwice(hub.subscribers)
  }

  ghost predicate BelongsTo(hub: Hub, inv: string, h: Handler) {
    && h.connection in hub.connections && h.connection in hub.handlers
    && hub.handlers[h.connection] == h
    && hub.connections[h.connection].investigation == inv
  }

  lemma DistinctCons<T(!new)>(x: T, s: seq<T>)
    requires x !in s && Distinct(s)
    ensures Distinct([x] + s)
  {
  }

  lemma DistinctTail<T(!new)>(s: seq<T>)
    requires |s| > 0 && Distinct(s)
    ensures s[0] !in s[1..] && Distinct(s[1..])
  {
    var t := s[1..];
    forall i | 0 <= i < |t| ensures t[i] != s[0] { assert s[i + 1] == t[i]; }
    forall i, j | 0 <= i < j < |t| ensures t[i] != t[j] { assert s[i + 1] != s[j + 1]; }
  }

  lemma {:induction false} RemoveFirstMembers<T(!new)>(s: seq<T>, x: T)
    requires Distinct(s)
    ensures Distinct(RemoveFirst(s, x))
    ensures forall y :: y in RemoveFirst(s, x) <==> y in s && y != x
    decreases |s|
  {
    if |s| > 0 {
      hide Distinct;
      DistinctTail(s);
      assert s == [s[0]] + s[1..];
      if s[0] != x {
        RemoveFirstMembers(s[1..], x);
        DistinctCons(s[0], RemoveFirst(s[1..], x));
      }
    }
  }

  lemma SubscribedMembers(m: Subscribers, inv: string, h: Handler)
    requires NoTwice(m) && forall i :: h !in SubscribersOf(m, i)
    ensures NoTwice(Subscribed(m, inv, h))
    ensures forall i, g :: g in SubscribersOf(Subscribed(m, inv, h), i) <==>
                           g in SubscribersOf(m, i) || (i == inv && g == h)
  {
    forall i ensures Distinct(SubscribersOf(Subscribed(m, inv, h), i)) {
      assert Distinct(SubscribersOf(m, i));
    }
  }

  lemma UnsubscribedMembers(m: Subscribers, inv: string, h: Handler)
    requires NoTwice(m)
    ensures NoTwice(Unsubscribed(m, inv, h))
    ensures forall i, g :: g in SubscribersOf(Unsubscribed(m, inv, h), i) <==>
                           g in SubscribersOf(m, i) && !(i == inv && g == h)
  {
    RemoveFirstMembers(SubscribersOf(m, inv), h);
    forall i ensures Distinct(SubscribersOf(Unsubscribed(m, inv, h), i)) {
      assert Distinct(SubscribersOf(m, i));
    }
  }

  lemma NewestIsNew(hub: Hub, h: Handler)
    requires Recorded(hub) && NoStray(hub) && h.serial >= hub.serial
    ensures forall inv :: h !in SubscribersOf(hub.subscribers, inv)
  {
    forall inv, g | g in SubscribersOf(hub.subscribers, inv) ensures g != h {
      assert BelongsTo(hub, inv, g);
    }
  }

  lemma RegisterFresh(hub: Hub, id: string, conn: Connection)
    requires Booked(hub) && id !in hub.connections
    ensures Booked(Registered(hub, id, conn))
  {
    hide Subscribed, NoTwice, SubscribersOf;
    var h := Handler(id, hub.serial);
    var hub' := Registered(hub, id, conn);
    NewestIsNew(hub, h);
    SubscribedMembers(hub.subscribers, conn.investigation, h);
    assert Recorded(hub') && OnBus(hub');
    forall inv, g | g in SubscribersOf(hub'.subscribers, inv) ensures BelongsTo(hub', inv, g) {
      if g != h {
        assert BelongsTo(hub, inv, g);
      }
    }
  }

  /** A handler on the bus that is nobody's recorded handler. */
  ghost predicate LeftBehind(hub: Hub, inv: string, h: Handler) {
    && h in SubscribersOf(hub.subscribers, inv) && h.serial < hub.serial
    && forall id <- hub.handlers :: hub.handlers[id] != h
  }

  lemma LeftBehindIsStray(hub: Hub, inv: string, h: Handler)
    requires LeftBehind(hub, inv, h)
    ensures !Booked(hub)
  {
    hide NoTwice, OnBus, Recorded, SubscribersOf;
  }

  /** The recorded handler of a live connection. */
  ghost function HandlerOf(hub: Hub, id: string): Handler
    requires Booked(hub) && id in hub.connections
  {
    hub.handlers[id]
  }

  /** Registering under an id still in use leaves the handler of its first connection behind. */
  lemma RegisterAgain(hub: Hub, id: string, conn: Connection)
    requires Booked(hub) && id in hub.connections
    ensures LeftBehind(Registered(hub, id, conn), hub.connections[id].investigation, HandlerOf(hub, id))
  {
    hide NoTwice, NoStray;
  }

  /** Registering a connection keeps the books right exactly if its id is not in use. */
  lemma RegisterKeeps(hub: Hub, id: string, conn: Connection)
    requires Booked(hub)
    ensures Booked(Registered(hub, id, conn)) <==> id !in hub.connections
  {
    hide Booked, LeftBehind, Registered;
    if id in hub.connections {
      RegisterAgain(hub, id, conn);
      LeftBehindIsStray(Registered(hub, id, conn), hub.connections[id].investigation, HandlerOf(hub, id));
    } else {
      RegisterFresh(hub, id, conn);
    }
  }

  lemma DisconnectKeeps(hub: Hub, id: string)
    requires Booked(hub)
    ensures Booked(Disconnected(hub, id))
  {
    hide Unsubscribed, NoTwice, SubscribersOf;
    if id in hub.connections {
      var hub' := Disconnected(hub, id);
      UnsubscribedMembers(hub.subscribers, hub.connections[id].investigation, hub.handlers[id]);
      assert Recorded(hub') && OnBus(hub');
      forall inv, g | g in SubscribersOf(hub'.subscribers, inv) ensures BelongsTo(hub', inv, g) {
        assert BelongsTo(hub, inv, g);
      }
    }
  }

  /** The lists after a move: the new handler has taken the place of the old one. */
  lemma MovedMembers(hub: Hub, id: string, inv': string)
    requires Booked(hub) && id in hub.connections && inv' != "" && inv' != hub.connections[id].investigation
    ensures NoTwice(Moved(hub, id, inv').subscribers)
    ensures forall i, g :: g in SubscribersOf(Moved(hub, id, inv').subscribers, i) <==>
              || (i == inv' && g == Handler(id, hub.serial))
              || (g in SubscribersOf(hub.subscribers, i) && g != hub.handlers[id])
  {
    hide Unsubscribed, Subscribed, NoTwice, SubscribersOf, OnBus;
    var h := Handler(id, hub.serial);
    NewestIsNew(hub, h);
    SubscribedMembers(hub.subscribers, inv', h);
    UnsubscribedMembers(Subscribed(hub.subscribers, inv', h), hub.connections[id].investigation, hub.handlers[id]);
    forall i | hub.handlers[id] in SubscribersOf(hub.subscribers, i) ensures i == hub.connections[id].investigation {
      assert BelongsTo(hub, i, hub.handlers[id]);
    }
  }

  lemma MoveKeeps(hub: Hub, id: string, inv': string)
    requires Booked(hub)
    ensures Booked(Moved(hub, id, inv'))
  {
    hide Unsubscribed, Subscribed, NoTwice, SubscribersOf, OnBus, NoStray;
    if id in hub.connections && inv' != "" && inv' != hub.connections[id].investigation {
      MovedMembers(hub, id, inv');
      MovedOnBus(hub, id, inv');
      MovedNoStray(hub, id, inv');
    }
  }

  /** A client that asks for another investigation is served there and nowhere else; all others stay as they were. */
  lemma MoveMeaning(hub: Hub, id: string, inv': string)
    requires Booked(hub) && id in hub.connections
    ensures var r, past := Moved(hub, id, inv'), hub.connections[id];
            && r.connections == hub.connections[id := past.(investigation := if inv' == "" then past.investigation else inv')]
            && (forall other <- hub.handlers :: other != id ==> other in r.handlers && r.handlers[other] == hub.handlers[other])
            && (forall inv, h: Handler :: h.connection == id ==>
                 (h in SubscribersOf(r.subscribers, inv) <==> id in r.handlers && h == r.handlers[id] && inv == r.connections[id].investigation))
  {
    hide Unsubscribed, Subscribed, NoTwice, SubscribersOf;
    MoveKeeps(hub, id, inv');
    var r := Moved(hub, id, inv');
    forall inv, h | h in SubscribersOf(r.subscribers, inv) ensures BelongsTo(r, inv, h) {
    }
  }

  lemma MovedOnBus(hub: Hub, id: string, inv': string)
    requires Booked(hub) && id in hub.connections && inv' != "" && inv' != hub.connections[id].investigation
    ensures Recorded(Moved(hub, id, inv')) && OnBus(Moved(hub, id, inv'))
  {
    hide Unsubscribed, Subscribed, NoTwice, SubscribersOf, NoStray, OnBus;
    var hub' := Moved(hub, id, inv');
    MovedMembers(hub, id, inv');
    forall other | other in hub'.connections
      ensures hub'.handlers[other] in SubscribersOf(hub'.subscribers, hub'.connections[other].investigation)
    {
      if other != id {
        StillOnBus(hub, other);
      }
    }
    AllOnBus(hub');
  }

  lemma StillOnBus(hub: Hub, id: string)
    requires Booked(hub) && id in hub.connections
    ensures hub.handlers[id] in SubscribersOf(hub.subscribers, hub.connections[id].investigation)
    ensures hub.handlers[id].connection == id
  {
    hide SubscribersOf, NoTwice, NoStray;
  }

  lemma AllOnBus(hub: Hub)
    requires Recorded(hub)
    requires forall id <- hub.connections.Keys :: hub.handlers[id] in SubscribersOf(hub.subscribers, hub.connections[id].investigation)
    ensures OnBus(hub)
  {
  }

  lemma MovedNoStray(hub: Hub, id: string, inv': string)
    requires Booked(hub) && id in hub.connections && inv' != "" && inv' != hub.connections[id].investigation
    ensures NoStray(Moved(hub, id, inv'))
  {
    hide Unsubscribed, Subscribed, NoTwice, SubscribersOf, OnBus, Recorded;
    var hub' := Moved(hub, id, inv');
    MovedMembers(hub, id, inv');
    forall inv, g | g in SubscribersOf(hub'.subscribers, inv) ensures BelongsTo(hub', inv, g) {
      if g != Handler(id, hub.serial) {
        assert BelongsTo(hub, inv, g);
      }
    }
  }

  // ---- Any run of clients coming, moving and going ----

  datatype Action =
    | Connect(id: string, conn: Connection)
    | Disconnect(id: string)
    | Move(id: string, inv: string)
    | Deliver(id: string, e: Event)

  function Delivered(hub: Hub, id: string, e: Event): Hub {
    if id !in hub.connections then hub
    else
      var c := hub.connections[id];
      hub.(connections := hub.connections[id := c.(
        lastSeq := if c.lastSeq < e.sequenceNum then e.sequenceNum else c.lastSeq,
        messageCount := c.messageCount + 1)])
  }

  function Act(hub: Hub, a: Action): Hub {
    match a
    case Connect(id, conn) => Registered(hub, id, conn)
    case Disconnect(id) => Disconnected(hub, id)
    case Move(id, inv) => Moved(hub, id, inv)
    case Deliver(id, e) => Delivered(hub, id, e)
  }

  function Run(actions: seq<Action>): Hub {
    if |actions| == 0 then Hub(map[], map[], map[], 0)
    else Act(Run(actions[..|actions| - 1]), actions[|actions| - 1])
  }

  /** No connection is registered under an id that is still in use. */
  ghost predicate NoneInUse(actions: seq<Action>) {
    forall i :: 0 <= i < |actions| && actions[i].Connect? ==> actions[i].id !in Run(actions[..i]).connections
  }

  lemma NoneInUseNext(actions: seq<Action>)
    requires |actions| > 0
    ensures var front, a := actions[..|actions| - 1], actions[|actions| - 1];
            NoneInUse(actions) <==> NoneInUse(front) && (a.Connect? ==> a.id !in Run(front).connections)
  {
    hide Run;
    var front := actions[..|actions| - 1];
    forall i | 0 <= i < |front| ensures front[..i] == actions[..i] {
    }
    if NoneInUse(actions) {
      forall i | 0 <= i < |front| && front[i].Connect? ensures front[i].id !in Run(front[..i]).connections {
        assert actions[i] == front[i];
      }
    }
  }

  lemma ActKeeps(hub: Hub, a: Action)
    requires Booked(hub) && (a.Connect? ==> a.id !in hub.connections)
    ensures Booked(Act(hub, a))
  {
    match a
    case Connect(id, conn) => RegisterKeeps(hub, id, conn);
    case Disconnect(id) => DisconnectKeeps(hub, id);
    case Move(id, inv) => MoveKeeps(hub, id, inv);
    case Deliver(id, e) =>
      var hub' := Delivered(hub, id, e);
      forall inv, g | g in SubscribersOf(hub'.subscribers, inv) ensures BelongsTo(hub', inv, g) {
        assert BelongsTo(hub, inv, g);
      }
  }

  lemma StaysSubscribed(m: Subscribers, i: string, g: Handler, inv: string, h: Handler)
    requires h in SubscribersOf(m, inv)
    ensures h in SubscribersOf(Subscribed(m, i, g), inv)
    ensures h != g ==> h in SubscribersOf(Unsubscribed(m, i, g), inv)
  {
    RemoveFirstCounts(SubscribersOf(m, i), g);
    var less := RemoveFirst(SubscribersOf(m, i), g);
    if inv == i && h != g {
      assert h in multiset(SubscribersOf(m, i));
      assert h in multiset(less);
    }
  }

  /** Nothing removes a handler that was left behind. */
  lemma LeftBehindStays(hub: Hub, a: Action, inv: string, h: Handler)
    requires LeftBehind(hub, inv, h)
    ensures LeftBehind(Act(hub, a), inv, h)
  {
    hide Subscribed, Unsubscribed, SubscribersOf;
    var m := hub.subscribers;
    if a.Connect? {
      StaysSubscribed(m, a.conn.investigation, Handler(a.id, hub.serial), inv, h);
    } else if a.id in hub.connections {
      var i := hub.connections[a.id].investigation;
      if a.id in hub.handlers {
        StaysSubscribed(m, i, hub.handlers[a.id], inv, h);
      }
      if a.Move? {
        var more := Subscribed(m, a.inv, Handler(a.id, hub.serial));
        StaysSubscribed(m, a.inv, Handler(a.id, hub.serial), inv, h);
        if a.id in hub.handlers {
          StaysSubscribed(more, i, hub.handlers[a.id], inv, h);
        }
      }
    }
  }

  lemma {:induction false} ReuseLeavesBehind(actions: seq<Action>) returns (inv: string, h: Handler)
    requires !NoneInUse(actions)
    ensures LeftBehind(Run(actions), inv, h)
    decreases |actions|
  {
    hide Booked, LeftBehind, Act, NoneInUse;
    if |actions| == 0 {
      NothingInUse();
    } else {
      var front, a := actions[..|actions| - 1], actions[|actions| - 1];
      NoneInUseNext(actions);
      if NoneInUse(front) {
        FreshRunBooked(front);
        var hub := Run(front);
        inv, h := hub.connections[a.id].investigation, HandlerOf(hub, a.id);
        RegisterAgain(hub, a.id, a.conn);
        ActConnects(hub, a);
      } else {
        inv, h := ReuseLeavesBehind(front);
        LeftBehindStays(Run(front), a, inv, h);
      }
    }
  }

  lemma ActConnects(hub: Hub, a: Action)
    requires a.Connect?
    ensures Act(hub, a) == Registered(hub, a.id, a.conn)
  {
  }

  lemma NothingInUse()
    ensures NoneInUse([])
  {
  }

  lemma {:induction false} FreshRunBooked(actions: seq<Action>)
    requires NoneInUse(actions)
    ensures Booked(Run(actions))
    decreases |actions|
  {
    hide Booked, Act, NoneInUse;
    if |actions| > 0 {
      var front := actions[..|actions| - 1];
      NoneInUseNext(actions);
      FreshRunBooked(front);
      ActKeeps(Run(front), actions[|actions| - 1]);
    } else {
      EmptyBooked();
    }
  }

  /**
   Over any run, with repeated disconnects and moves, the books are right at the end exactly if no
   connection was ever registered under an id that was still in use.
   */
  lemma RunBooked(actions: seq<Action>)
    ensures Booked(Run(actions)) <==> NoneInUse(actions)
  {
    hide Booked, Run, NoneInUse, LeftBehind;
    if NoneInUse(actions) {
      FreshRunBooked(actions);
    } else {
      var inv, h := ReuseLeavesBehind(actions);
      LeftBehindIsStray(Run(actions), inv, h);
    }
  }

  lemma EmptyBooked()
    ensures Booked(Hub(map[], map[], map[], 0))
  {
  }

  /** After its disconnect a connection has no handler on the bus, however often it disconnects. */
  lemma NothingLeft(hub: Hub, id: string)
    requires Booked(hub)
    ensures var hub' := Disconnected(hub, id);
            && Disconnected(hub', id) == hub'
            && forall inv, h :: h in SubscribersOf(hub'.subscribers, inv) ==> h.connection != id
  {
    DisconnectKeeps(hub, id);
    var hub' := Disconnected(hub, id);
    forall inv, h | h in SubscribersOf(hub'.subscribers, inv) ensures h.connection != id {
      assert BelongsTo(hub', inv, h);
    }
  }

  /** A second connection under an id still in use leaves a handler behind that nothing removes. */
  lemma ReusedIdLeaks()
    ensures var c := Connection("i", "viewer", 0, 0);
            var hub := Run([Connect("a", c), Connect("a", c), Disconnect("a"), Disconnect("a")]);
            hub.connections == map[] && Handler("a", 0) in SubscribersOf(hub.subscribers, "i")
  {
    var c := Connection("i", "viewer", 0, 0);
    var as' := [Connect("a", c), Connect("a", c), Disconnect("a"), Disconnect("a")];
    assert as'[..3][..2] == as'[..2] && as'[..2][..1] == as'[..1] && as'[..1][..0] == [];
    var h1 := Run(as'[..1]);
    assert Run(as'[..0]) == Hub(map[], map[], map[], 0);
    assert h1.subscribers["i"] == [Handler("a", 0)];
    var h2 := Run(as'[..2]);
    assert h2.subscribers["i"] == [Handler("a", 0), Handler("a", 1)];
    var h3 := Run(as'[..3]);
    assert [Handler("a", 0), Handler("a", 1)][1..] == [Handler("a", 1)];
    assert RemoveFirst([Handler("a", 1)], Handler("a", 1)) == [];
    assert h3.subscribers["i"] == [Handler("a", 0)];
  }
}
