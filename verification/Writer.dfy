/**
 The background writer: any number of producers put items into a bounded queue that never blocks them,
 and one thread takes them out again and hands them over in batches.
 */
module Writer {
  import opened Base

  type Item = string

  /** A limit of zero or less means no limit. */
  datatype Limits = Limits(queueMax: int, batchSize: int)

  /**
   The writer's fields, and what has happened so far: the calls made while ready, the items accepted,
   how many there were when the writer was first told to stop, and the batches handed over.
   */
  datatype State = State(
    ready: bool, queue: seq<Option<Item>>, batch: seq<Item>, drops: nat, exited: bool,
    submitted: nat, accepted: seq<Item>, stopAt: Option<nat>, flushed: seq<seq<Item>>)

  function NotReady(): State {
    State(false, [], [], 0, false, 0, [], None, [])
  }

  predicate Full(l: Limits, s: State) {
    0 < l.queueMax <= |s.queue|
  }

  function Started(s: State): State {
    s.(ready := true)
  }

  /** A full queue drops the item; before the start nothing happens. */
  function Enqueued(l: Limits, s: State, item: Item): State {
    if !s.ready then s
    else if Full(l, s) then s.(submitted := s.submitted + 1, drops := s.drops + 1)
    else s.(submitted := s.submitted + 1, queue := s.queue + [Some(item)], accepted := s.accepted + [item])
  }

  /** Stopping waits for room in the queue. */
  function Stopping(l: Limits, s: State): State {
    if !s.ready || Full(l, s) then s
    else s.(queue := s.queue + [None], stopAt := if s.stopAt == None then Some(|s.accepted|) else s.stopAt)
  }

  function Flush(s: State): State {
    if s.batch == [] then s else s.(flushed := s.flushed + [s.batch], batch := [])
  }

  /** One turn of the writer's loop, from a get that returned or timed out to the next. */
  function Turn(l: Limits, s: State): State {
    if !s.ready || s.exited then s
    else if s.queue == [] then Flush(s)
    else if s.queue[0] == None then Flush(s.(queue := s.queue[1..])).(exited := true)
    else
      var taken := s.(queue := s.queue[1..], batch := s.batch + [s.queue[0].value]);
      if |taken.batch| >= l.batchSize then Flush(taken) else taken
  }

  class OpsWriter {
    const limits: Limits
    var ready: bool
    var queue: seq<Option<Item>>
    var batch: seq<Item>
    var drops: nat
    var exited: bool
    ghost var submitted: nat
    ghost var accepted: seq<Item>
    ghost var stopAt: Option<nat>
    ghost var flushed: seq<seq<Item>>

    ghost function Now(): State
      reads this
    {
      State(ready, queue, batch, drops, exited, submitted, accepted, stopAt, flushed)
    }

    constructor (limits: Limits)
      ensures Now() == NotReady() && this.limits == limits
    {
      this.limits := limits;
      ready, queue, batch, drops, exited := false, [], [], 0, false;
      submitted, accepted, stopAt, flushed := 0, [], None, [];
    }

    method Start()
      modifies this`ready
      ensures Now() == Started(old(Now()))
    {
      ready := true;
    }

    method Enqueue(item: Item)
      modifies this`queue, this`drops, this`submitted, this`accepted
      ensures Now() == Enqueued(limits, old(Now()), item)
    {
      if !ready { return; }
      submitted := submitted + 1;
      if 0 < limits.queueMax <= |queue| {
        drops := drops + 1;
      } else {
        queue, accepted := queue + [Some(item)], accepted + [item];
      }
    }

    /** Puts the poison pill if there is room for it. */
    method Stop() returns (put: bool)
      modifies this`queue, this`stopAt
      ensures Now() == Stopping(limits, old(Now())) && put == (ready && !Full(limits, old(Now())))
    {
      put := ready && !(0 < limits.queueMax <= |queue|);
      if put {
        queue := queue + [None];
        if stopAt == None { stopAt := Some(|accepted|); }
      }
    }

    method HandOver()
      modifies this`batch, this`flushed
      ensures Now() == Flush(old(Now()))
    {
      if |batch| > 0 {
        flushed := flushed + [batch];
        batch := [];
      }
    }

    method WriterTurn()
      modifies this`queue, this`batch, this`exited, this`flushed
      ensures Now() == Turn(limits, old(Now()))
    {
      if !ready || exited { return; }
      if |queue| == 0 {
        HandOver();
        return;
      }
      var item := queue[0];
      queue := queue[1..];
      if item == None {
        HandOver();
        exited := true;
        return;
      }
      batch := batch + [item.value];
      if |batch| >= limits.batchSize { HandOver(); }
    }
  }

  // ---- Runs ----

  datatype Event = Begin | Submit(item: Item) | Stop | Write

  function Act(l: Limits, s: State, e: Event): State {
    match e
    case Begin => Started(s)
    case Submit(item) => Enqueued(l, s, item)
    case Stop => Stopping(l, s)
    case Write => Turn(l, s)
  }

  function Run(l: Limits, s: State, events: seq<Event>): State {
    if |events| == 0 then s else Act(l, Run(l, s, events[..|events| - 1]), events[|events| - 1])
  }

  /** All items of all batches, in order. */
  function Concat(bs: seq<seq<Item>>): seq<Item> {
    if |bs| == 0 then [] else Concat(bs[..|bs| - 1]) + bs[|bs| - 1]
  }

  /** The items in a queue. */
  function Items(q: seq<Option<Item>>): seq<Item> {
    if |q| == 0 then []
    else (if q[0] == None then [] else [q[0].value]) + Items(q[1..])
  }

  /** How many items are in front of the first pill, or all of them. */
  function Ahead(q: seq<Option<Item>>): nat {
    if |q| == 0 || q[0] == None then 0 else 1 + Ahead(q[1..])
  }

  function MaxBatch(l: Limits): nat {
    if l.batchSize < 1 then 1 else l.batchSize
  }

  /** What the writer has taken out of the queue. */
  function Taken(s: State): seq<Item> {
    Concat(s.flushed) + s.batch
  }

  ghost predicate Conserved(l: Limits, s: State) {
    && s.accepted == Taken(s) + Items(s.queue)
    && s.submitted == |s.accepted| + s.drops
    && (!s.ready ==> s.submitted == 0 && s.queue == [])
    && (l.queueMax > 0 ==> |s.queue| <= l.queueMax)
  }

  ghost predicate Batched(l: Limits, s: State) {
    && |s.batch| < MaxBatch(l)
    && (forall b <- s.flushed :: 0 < |b| <= MaxBatch(l))
    && (s.exited ==> s.batch == [])
  }

  /** Where the first pill is, if one was put. */
  ghost predicate PillPlaced(s: State) {
    && (s.stopAt == None ==> !s.exited && None !in s.queue)
    && (s.stopAt != None && !s.exited ==>
         None in s.queue && s.stopAt.value == |Taken(s)| + Ahead(s.queue))
    && (s.stopAt != None && s.exited ==> s.stopAt.value == |Taken(s)|)
  }

  ghost predicate Sound(l: Limits, s: State) {
    Conserved(l, s) && Batched(l, s) && PillPlaced(s)
  }

  lemma {:induction false} ItemsNext(q: seq<Option<Item>>, x: Option<Item>)
    ensures Items(q + [x]) == Items(q) + if x == None then [] else [x.value]
    ensures Ahead(q + [x]) == if None in q || x == None then Ahead(q) else Ahead(q) + 1
    ensures None !in q ==> Ahead(q) == |Items(q)|
    ensures Ahead(q) <= |Items(q)|
  {
    if |q| > 0 {
      assert (q + [x])[1..] == q[1..] + [x];
      ItemsNext(q[1..], x);
    } else {
      assert (q + [x])[1..] == [];
    }
  }

  lemma FlushKeeps(s: State)
    ensures Taken(Flush(s)) == Taken(s) && Flush(s).batch == []
  {
    if s.batch != [] {
      assert (s.flushed + [s.batch])[..|s.flushed|] == s.flushed;
    }
  }

  /** A turn moves at most one thing from the queue, and loses nothing. */
  lemma TurnTakes(l: Limits, s: State)
    requires s.ready && !s.exited
    ensures var r := Turn(l, s);
            && r.queue == (if s.queue == [] then [] else s.queue[1..])
            && Taken(r) == (if s.queue == [] || s.queue[0] == None then Taken(s) else Taken(s) + [s.queue[0].value])
  {
    hide Concat;
    if s.queue == [] {
      FlushKeeps(s);
    } else {
      var rest := s.(queue := s.queue[1..]);
      FlushKeeps(rest);
      if s.queue[0] != None {
        FlushKeeps(rest.(batch := s.batch + [s.queue[0].value]));
      }
    }
  }

  lemma TurnBatches(l: Limits, s: State)
    requires Batched(l, s)
    ensures Batched(l, Turn(l, s))
  {
  }

  lemma TurnSound(l: Limits, s: State)
    requires Sound(l, s)
    ensures Conserved(l, Turn(l, s)) && PillPlaced(Turn(l, s))
  {
    hide Taken, Batched, Turn;
    TurnFlags(l, s);
    if s.ready && !s.exited {
      TurnTakes(l, s);
    } else {
      TurnIdles(l, s);
    }
  }

  lemma TurnIdles(l: Limits, s: State)
    requires !s.ready || s.exited
    ensures Turn(l, s) == s
  {
  }

  lemma TurnFlags(l: Limits, s: State)
    ensures var r := Turn(l, s);
            && r.ready == s.ready && r.submitted == s.submitted && r.drops == s.drops && r.accepted == s.accepted && r.stopAt == s.stopAt
            && r.exited == (s.exited || (s.ready && s.queue != [] && s.queue[0] == None))
  {
  }

  lemma EnqueuedSound(l: Limits, s: State, item: Item)
    requires Sound(l, s)
    ensures Sound(l, Enqueued(l, s, item))
  {
    hide Concat;
    ItemsNext(s.queue, Some(item));
    assert Taken(Enqueued(l, s, item)) == Taken(s);
  }

  lemma StoppingSound(l: Limits, s: State)
    requires Sound(l, s)
    ensures Sound(l, Stopping(l, s))
  {
    hide Concat;
    ItemsNext(s.queue, None);
    assert Taken(Stopping(l, s)) == Taken(s);
  }

  lemma ActSound(l: Limits, s: State, e: Event)
    requires Sound(l, s)
    ensures Sound(l, Act(l, s, e))
  {
    hide Turn, Enqueued, Stopping;
    match e
    case Begin =>
    case Submit(item) => EnqueuedSound(l, s, item);
    case Stop => StoppingSound(l, s);
    case Write =>
      hide Taken;
      TurnBatches(l, s);
      TurnSound(l, s);
  }

  lemma {:induction false} RunSound(l: Limits, events: seq<Event>)
    ensures Sound(l, Run(l, NotReady(), events))
  {
    if |events| > 0 {
      hide Sound, Act;
      RunSound(l, events[..|events| - 1]);
      ActSound(l, Run(l, NotReady(), events[..|events| - 1]), events[|events| - 1]);
    }
  }

  /**
   In every run, however the producers and the writer take turns: what was accepted is what was handed
   over, then what is in the current batch, then what is in the queue, in the order of acceptance; every
   call made while ready was accepted or dropped; and no batch is empty or too big.
   */
  lemma WriterConserves(l: Limits, events: seq<Event>)
    ensures var s := Run(l, NotReady(), events);
            && s.accepted == Concat(s.flushed) + s.batch + Items(s.queue)
            && s.submitted == |s.accepted| + s.drops
            && forall b <- s.flushed :: 0 < |b| <= MaxBatch(l)
  {
    RunSound(l, events);
  }

  /**
   Once the writer has exited, exactly what was accepted before it was first told to stop has been
   handed over, each item once and in order; what was accepted later stays in the queue.
   */
  lemma ExitedWriter(l: Limits, events: seq<Event>)
    requires Run(l, NotReady(), events).exited
    ensures var s := Run(l, NotReady(), events);
            && s.stopAt != None && s.stopAt.value <= |s.accepted|
            && Concat(s.flushed) == s.accepted[..s.stopAt.value]
            && Items(s.queue) == s.accepted[s.stopAt.value..]
  {
    RunSound(l, events);
  }

  function Writes(n: nat): (r: seq<Event>)
    ensures |r| == n
  {
    seq(n, _ => Write)
  }

  lemma {:induction false} RunConcat(l: Limits, s: State, a: seq<Event>, b: seq<Event>)
    ensures Run(l, s, a + b) == Run(l, Run(l, s, a), b)
    decreases |b|
  {
    if |b| == 0 {
      assert a + b == a;
    } else {
      assert (a + b)[..|a + b| - 1] == a + b[..|b| - 1];
      RunConcat(l, s, a, b[..|b| - 1]);
    }
  }

  /** Told to stop, the writer exits after one turn for each item ahead of the pill, and one more. */
  lemma {:induction false} WriterExits(l: Limits, s: State)
    requires s.ready && !s.exited && None in s.queue
    ensures Run(l, s, Writes(Ahead(s.queue) + 1)).exited
    decreases |s.queue|
  {
    var next := Turn(l, s);
    assert Writes(1)[..0] == [];
    assert Run(l, s, Writes(1)) == next;
    if s.queue[0] != None {
      WriterExits(l, next);
      assert Writes(1) + Writes(Ahead(next.queue) + 1) == Writes(Ahead(s.queue) + 1);
      RunConcat(l, s, Writes(1), Writes(Ahead(next.queue) + 1));
    } else {
      assert Writes(Ahead(s.queue) + 1) == Writes(1);
    }
  }

  // ---- What one call does, after any run ----

  lemma RunNext(l: Limits, s: State, events: seq<Event>, e: Event)
    ensures Run(l, s, events + [e]) == Act(l, Run(l, s, events), e)
  {
    assert (events + [e])[..|events|] == events;
  }

  /**
   A submission while ready is accepted, at the end of the queue, exactly if there is no limit or fewer
   things are queued than the limit; otherwise it is counted as dropped and the queue stays as it was.
   Before the start nothing happens.
   */
  lemma SubmissionMeaning(l: Limits, events: seq<Event>, item: Item)
    ensures var s, r := Run(l, NotReady(), events), Run(l, NotReady(), events + [Submit(item)]);
            && (r.accepted == s.accepted + [item] <==> s.ready && (l.queueMax <= 0 || |s.queue| < l.queueMax))
            && r == (if !s.ready then s
                     else if l.queueMax <= 0 || |s.queue| < l.queueMax then
                       s.(submitted := s.submitted + 1, queue := s.queue + [Some(item)], accepted := s.accepted + [item])
                     else s.(submitted := s.submitted + 1, drops := s.drops + 1))
  {
    hide Run;
    RunNext(l, NotReady(), events, Submit(item));
  }

  /** A stop puts a pill at the end of the queue exactly if there is room for it, and notes when it was the first. */
  lemma StopMeaning(l: Limits, events: seq<Event>)
    ensures var s, r := Run(l, NotReady(), events), Run(l, NotReady(), events + [Stop]);
            r == (if s.ready && (l.queueMax <= 0 || |s.queue| < l.queueMax) then
                    s.(queue := s.queue + [None], stopAt := if s.stopAt == None then Some(|s.accepted|) else s.stopAt)
                  else s)
  {
    hide Run;
    RunNext(l, NotReady(), events, Stop);
  }

  /**
   A turn hands the current batch over exactly when the queue is empty, when it meets the pill, or when
   the item it takes fills the batch.
   */
  lemma TurnMeaning(l: Limits, events: seq<Event>)
    requires var s := Run(l, NotReady(), events); s.ready && !s.exited
    ensures var s, r := Run(l, NotReady(), events), Run(l, NotReady(), events + [Write]);
            var takes := |s.queue| > 0 && s.queue[0] != None;
            var batch := if takes then s.batch + [s.queue[0].value] else s.batch;
            var over := |batch| > 0 && (takes ==> |batch| >= l.batchSize);
            && r.queue == (if |s.queue| > 0 then s.queue[1..] else [])
            && r.flushed == (if over then s.flushed + [batch] else s.flushed)
            && r.batch == (if over then [] else batch)
            && (r.exited <==> |s.queue| > 0 && s.queue[0] == None)
  {
    hide Run;
    RunNext(l, NotReady(), events, Write);
  }

  lemma OneWrite(l: Limits, s: State)
    ensures Run(l, s, Writes(1)) == Turn(l, s)
  {
    hide Turn;
    assert Writes(1)[..0] == [];
  }

  lemma HeadItem(q: seq<Option<Item>>, taken: seq<Item>)
    requires |q| > 0 && None !in q
    ensures q[0] != None && None !in q[1..] && taken + Items(q) == (taken + [q[0].value]) + Items(q[1..])
  {
    assert q[0] in q;
  }

  lemma FlushedOut(l: Limits, s: State)
    requires s.ready && !s.exited && s.queue == []
    ensures Concat(Turn(l, s).flushed) == Taken(s) + Items(s.queue) && Turn(l, s).batch == []
  {
    FlushKeeps(s);
  }

  /** Not told to stop, the writer has handed everything over after one turn for each queued item and one more. */
  lemma {:induction false} WriterDrains(l: Limits, s: State)
    requires s.ready && !s.exited && None !in s.queue
    ensures var r := Run(l, s, Writes(|s.queue| + 1));
            Concat(r.flushed) == Taken(s) + Items(s.queue) && r.batch == [] && r.queue == [] && !r.exited
    decreases |s.queue|
  {
    hide *;
    var next := Turn(l, s);
    OneWrite(l, s);
    TurnTakes(l, s);
    TurnFlags(l, s);
    if |s.queue| > 0 {
      HeadItem(s.queue, Taken(s));
      WriterDrains(l, next);
      WritesSplit(|s.queue|);
      RunConcat(l, s, Writes(1), Writes(|s.queue|));
    } else {
      FlushedOut(l, s);
    }
  }

  lemma WritesSplit(n: nat)
    ensures Writes(1) + Writes(n) == Writes(n + 1)
  {
  }

  /** So after any run without a stop, left to itself, the writer hands over all that was accepted. */
  lemma AllHandedOver(l: Limits, events: seq<Event>)
    requires var s := Run(l, NotReady(), events); s.ready && s.stopAt == None
    ensures var s := Run(l, NotReady(), events); Concat(Run(l, s, Writes(|s.queue| + 1)).flushed) == s.accepted
  {
    RunSound(l, events);
    hide Run, Concat, Items;
    WriterDrains(l, Run(l, NotReady(), events));
  }
}
