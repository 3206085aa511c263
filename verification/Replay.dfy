/**
 Replaying an investigation while an operator pauses, resumes, steps and aborts.  The replay task
 runs from one await to the next; between any two of its parts the operator may do anything.  An
 event object that is set wakes whoever waits for it, and the woken task does not look again.
 */
module Replay {
  import opened Events

  datatype Mode = Live | Fast | StepMode
  datatype Status = Pending | Running | Paused | Completed | Aborted

  /** Where the replay task is suspended; `i` is the position of the event it is about, or was. */
  datatype Point =
    | NotStarted
    | AtPause(i: nat)
    | PastPause(i: nat)
    | InCallback(i: nat)
    | Sleeping(i: nat)
    | AtStep(i: nat)
    | PastStep(i: nat)
    | Finished

  /** A session, and with it the events whose callback has been started and the calls that mattered. */
  datatype Session = Session(
    mode: Mode, events: seq<Event>, status: Status, currentStep: nat, stepSet: bool, pauseSet: bool,
    point: Point, started: seq<Event>, stepCalls: nat)

  function NewSession(mode: Mode, snapshot: seq<Event>): Session {
    Session(mode, InOrder(snapshot), Pending, 0, false, true, NotStarted, [], 0)
  }

  // ---- The replay task ----

  /** The top of the loop, for the event at `i`, up to the next suspension. */
  function LoopTop(s: Session, i: nat): Session {
    if i >= |s.events| then Finish(s)
    else if s.pauseSet then AfterPause(s, i)
    else s.(point := AtPause(i))
  }

  function AfterPause(s: Session, i: nat): Session
    requires i < |s.events|
  {
    if s.status == Aborted then Finish(s)
    else s.(currentStep := i + 1, started := s.started + [s.events[i]], point := InCallback(i))
  }

  function Finish(s: Session): Session {
    if s.status != Aborted then s.(status := Completed, point := Finished) else s.(point := Finished)
  }

  ghost predicate InRange(s: Session) {
    match s.point
    case NotStarted => true
    case Finished => true
    case _ => s.point.i < |s.events|
  }

  /** The task runs until it is suspended again; while it waits for an event object it cannot run. */
  function Advance(s: Session): (r: Session)
    requires InRange(s)
    ensures InRange(r) && r.events == s.events && r.mode == s.mode && s.started <= r.started
  {
    match s.point
    case NotStarted => LoopTop(s.(status := Running), 0)
    case AtPause(_) => s
    case PastPause(i) => AfterPause(s, i)
    case InCallback(i) =>
      if s.mode == StepMode then s.(stepSet := false, point := AtStep(i)) else s.(point := Sleeping(i))
    case Sleeping(i) => LoopTop(s, i + 1)
    case AtStep(_) => s
    case PastStep(i) => LoopTop(s, i + 1)
    case Finished => s
  }

  // ---- The operator ----

  /** Setting the pause event wakes a task that waits for it; so does setting the step event. */
  function SetPause(s: Session): Session {
    s.(pauseSet := true, point := if s.point.AtPause? then PastPause(s.point.i) else s.point)
  }

  function SetStep(s: Session): Session {
    s.(stepSet := true, point := if s.point.AtStep? then PastStep(s.point.i) else s.point)
  }

  function PauseOf(s: Session): Session {
    if s.status == Running then s.(pauseSet := false, status := Paused) else s
  }

  function ResumeOf(s: Session): Session {
    if s.status == Paused then SetPause(s).(status := Running) else s
  }

  function StepOf(s: Session): Session {
    if s.mode == StepMode then SetStep(s).(stepCalls := s.stepCalls + 1) else s
  }

  function AbortOf(s: Session): Session {
    SetStep(SetPause(s.(status := Aborted)))
  }

  class ReplaySession {
    const mode: Mode
    const events: seq<Event>
    var status: Status
    var currentStep: nat
    var stepSet: bool
    var pauseSet: bool
    var point: Point
    ghost var started: seq<Event>
    ghost var stepCalls: nat

    ghost function State(): Session
      reads this
    {
      Session(mode, events, status, currentStep, stepSet, pauseSet, point, started, stepCalls)
    }

    constructor (mode: Mode, snapshot: seq<Event>)
      ensures State() == NewSession(mode, snapshot)
    {
      this.mode, this.events := mode, InOrder(snapshot);
      status, currentStep, stepSet, pauseSet, point := Pending, 0, false, true, NotStarted;
      started, stepCalls := [], 0;
    }

    method Pause() returns (ok: bool)
      modifies this`status, this`pauseSet
      ensures State() == PauseOf(old(State())) && ok == (old(status) == Running)
    {
      if status != Running { return false; }
      pauseSet := false;
      status := Paused;
      ok := true;
    }

    method Resume() returns (ok: bool)
      modifies this`status, this`pauseSet, this`point
      ensures State() == ResumeOf(old(State())) && ok == (old(status) == Paused)
    {
      if status != Paused { return false; }
      WakePause();
      status := Running;
      ok := true;
    }

    method Step() returns (ok: bool)
      modifies this`stepSet, this`point, this`stepCalls
      ensures State() == StepOf(old(State())) && ok == (mode == StepMode)
    {
      if mode != StepMode { return false; }
      WakeStep();
      stepCalls := stepCalls + 1;
      ok := true;
    }

    method Abort()
      modifies this`status, this`pauseSet, this`stepSet, this`point
      ensures State() == AbortOf(old(State()))
    {
      status := Aborted;
      WakePause();
      WakeStep();
    }

    method WakePause()
      modifies this`pauseSet, this`point
      ensures State() == SetPause(old(State()))
    {
      pauseSet := true;
      if point.AtPause? { point := PastPause(point.i); }
    }

    method WakeStep()
      modifies this`stepSet, this`point
      ensures State() == SetStep(old(State()))
    {
      stepSet := true;
      if point.AtStep? { point := PastStep(point.i); }
    }

    /** One stretch of the replay loop, from the await it was suspended in to the next. */
    method RunReplay()
      requires InRange(State())
      modifies this
      ensures State() == Advance(old(State()))
    {
      if point.AtPause? || point.AtStep? || point == Finished { return; }
      var i := 0;
      if point == NotStarted {
        status := Running;
      } else if point.InCallback? {
        i := point.i;
        if mode == StepMode {
          stepSet := false;
          point := AtStep(i);
        } else {
          point := Sleeping(i);
        }
        return;
      } else {
        i := if point.PastPause? then point.i else point.i + 1;
      }
      if i < |events| && !point.PastPause? && !pauseSet {
        point := AtPause(i);
        return;
      }
      if i < |events| && status != Aborted {
        currentStep := i + 1;
        started := started + [events[i]];
        point := InCallback(i);
        return;
      }
      if status != Aborted { status := Completed; }
      point := Finished;
    }
  }

  // ---- Any order of task and operator ----

  datatype Move = Task | Pause | Resume | Step | Abort

  function Act(s: Session, m: Move): (r: Session)
    requires InRange(s)
    ensures InRange(r) && r.events == s.events && r.mode == s.mode && s.started <= r.started
  {
    match m
    case Task => Advance(s)
    case Pause => PauseOf(s)
    case Resume => ResumeOf(s)
    case Step => StepOf(s)
    case Abort => AbortOf(s)
  }

  function Run(s: Session, moves: seq<Move>): (r: Session)
    requires InRange(s)
    ensures InRange(r) && r.events == s.events && r.mode == s.mode && s.started <= r.started
  {
    hide InRange, Act;
    if |moves| == 0 then s else Act(Run(s, moves[..|moves| - 1]), moves[|moves| - 1])
  }

  /** How many events the task is past, by where it is. */
  function Passed(s: Session): nat {
    match s.point
    case NotStarted => 0
    case AtPause(i) => i
    case PastPause(i) => i
    case InCallback(i) => i + 1
    case Sleeping(i) => i + 1
    case AtStep(i) => i + 1
    case PastStep(i) => i + 1
    case Finished => |s.started|
  }

  /** What holds at every moment of every run. */
  ghost predicate Consistent(s: Session) {
    InRange(s) && Counted(s) && Fitting(s)
  }

  ghost predicate Counted(s: Session)
    requires InRange(s)
  {
    && Passed(s) == |s.started| == s.currentStep <= |s.events|
    && s.started == s.events[..|s.started|]
    && (s.status == Completed ==> s.point == Finished && s.started == s.events)
    && (s.mode == StepMode ==> !s.point.Sleeping? && StepsUsed(s) <= s.stepCalls)
  }

  ghost predicate Fitting(s: Session) {
    && (s.point == Finished ==> s.status == Aborted || s.status == Completed)
    && (s.status == Completed ==> s.point == Finished)
    && (s.status == Pending ==> s.point == NotStarted)
    && (s.point == NotStarted ==> s.status == Pending || s.status == Aborted)
    && (s.status == Paused ==> !s.pauseSet)
    && (!s.pauseSet ==> s.status == Paused || s.status == Completed)
    && (s.point.AtPause? ==> s.status == Paused && !s.pauseSet)
    && (s.mode != StepMode ==> !s.point.AtStep? && !s.point.PastStep?)
  }

  /** Calls of `step` it took to get where the task is, if nothing was aborted. */
  function StepsUsed(s: Session): nat {
    match s.point
    case PastStep(i) => if s.status == Aborted then i else i + 1
    case Finished => if |s.started| == 0 then 0 else |s.started| - 1
    case AtPause(i) => i
    case PastPause(i) => i
    case InCallback(i) => i
    case Sleeping(i) => i
    case AtStep(i) => i
    case NotStarted => 0
  }

  /** What the task relies on when it is about to deal with the event at `i`. */
  ghost predicate Ready(s: Session, i: nat) {
    && |s.started| == s.currentStep == i <= |s.events| && s.started == s.events[..i]
    && s.status != Completed
    && (s.mode == StepMode ==> i <= s.stepCalls || (s.status == Aborted && s.pauseSet && i == s.stepCalls + 1))
  }

  lemma AfterPauseCounted(s: Session, i: nat)
    requires Ready(s, i) && i < |s.events|
    ensures Counted(AfterPause(s, i))
  {
    assert s.started + [s.events[i]] == s.events[..i + 1];
  }

  lemma LoopTopCounted(s: Session, i: nat)
    requires Ready(s, i)
    ensures Counted(LoopTop(s, i))
  {
    if i < |s.events| && s.pauseSet {
      AfterPauseCounted(s, i);
    }
  }

  lemma AdvanceCounted(s: Session)
    requires Consistent(s)
    ensures Counted(Advance(s))
  {
    hide LoopTop, AfterPause;
    match s.point
    case NotStarted => LoopTopCounted(s.(status := Running), 0);
    case PastPause(i) => AfterPauseCounted(s, i);
    case Sleeping(i) => LoopTopCounted(s, i + 1);
    case PastStep(i) => LoopTopCounted(s, i + 1);
    case _ =>
  }

  lemma AdvanceFitting(s: Session)
    requires InRange(s) && Fitting(s)
    ensures Fitting(Advance(s))
  {
  }

  lemma ActConsistent(s: Session, m: Move)
    requires Consistent(s)
    ensures Consistent(Act(s, m))
  {
    if m == Task {
      hide Counted, Fitting, Advance;
      AdvanceFitting(s);
      AdvanceCounted(s);
    } else {
      hide Advance;
    }
  }

  lemma {:induction false} RunConsistent(s: Session, moves: seq<Move>)
    requires Consistent(s)
    ensures Consistent(Run(s, moves))
    decreases |moves|
  {
    if |moves| > 0 {
      hide Consistent, Act;
      RunConsistent(s, moves[..|moves| - 1]);
      ActConsistent(Run(s, moves[..|moves| - 1]), moves[|moves| - 1]);
    }
  }

  /**
   In every run, whatever the operator does: the callbacks started are the first `currentStep`
   events in sequence order, the session completes only when all have been started, and in step
   mode there is at most one more than calls of `step`.
   */
  lemma ReplaySafe(mode: Mode, snapshot: seq<Event>, moves: seq<Move>)
    ensures var s := Run(NewSession(mode, snapshot), moves);
            && s.currentStep <= |InOrder(snapshot)|
            && s.started == InOrder(snapshot)[..s.currentStep]
            && (s.status == Completed ==> s.started == InOrder(snapshot))
            && (mode == StepMode ==> |s.started| <= s.stepCalls + 1)
  {
    hide InOrder, Run;
    FromTheStart(mode, snapshot);
    RunConsistent(NewSession(mode, snapshot), moves);
  }

  // ---- Abort ----

  ghost predicate Stopped(s: Session) {
    InRange(s) && s.status == Aborted && s.point != NotStarted
  }

  lemma StoppedStays(s: Session, m: Move)
    requires Stopped(s)
    ensures Stopped(Act(s, m)) && Act(s, m).started == s.started
  {
  }

  lemma {:induction false} StoppedRun(s: Session, moves: seq<Move>)
    requires Stopped(s)
    ensures Stopped(Run(s, moves)) && Run(s, moves).started == s.started
    decreases |moves|
  {
    if |moves| > 0 {
      hide Stopped, Act;
      StoppedRun(s, moves[..|moves| - 1]);
      StoppedStays(Run(s, moves[..|moves| - 1]), moves[|moves| - 1]);
    }
  }

  /** After an abort nothing starts any more, unless the task had not even begun: then the abort is overwritten. */
  lemma AbortStops(s: Session)
    requires Consistent(s)
    ensures (forall moves :: Run(AbortOf(s), moves).started == s.started) <==> s.point != NotStarted || s.events == []
  {
    if s.point != NotStarted {
      forall moves ensures Run(AbortOf(s), moves).started == s.started {
        StoppedRun(AbortOf(s), moves);
      }
    } else if s.events == [] {
      forall moves ensures Run(AbortOf(s), moves).started == s.started {
        ActConsistent(s, Abort);
        RunConsistent(AbortOf(s), moves);
      }
    } else {
      var one := [Task];
      assert one[..0] == [];
      assert Run(AbortOf(s), one[..0]) == AbortOf(s);
      assert |Run(AbortOf(s), one).started| == |s.started| + 1;
    }
  }

  // ---- Pause ----

  ghost predicate NoResume(moves: seq<Move>) {
    forall k :: 0 <= k < |moves| ==> moves[k] != Resume
  }

  /** A task that waits for nothing it was already woken from. */
  ghost predicate Held(s: Session) {
    && InRange(s) && s.point != NotStarted
    && ((!s.pauseSet && !s.point.PastPause? && s.status != Running) || s.status == Aborted)
  }

  lemma HeldStays(s: Session, m: Move)
    requires Held(s) && m != Resume
    ensures Held(Act(s, m)) && Act(s, m).started == s.started
  {
  }

  lemma {:induction false} HeldRun(s: Session, moves: seq<Move>)
    requires Held(s) && NoResume(moves)
    ensures Held(Run(s, moves)) && Run(s, moves).started == s.started
    decreases |moves|
  {
    if |moves| > 0 {
      hide Held, Act;
      HeldRun(s, moves[..|moves| - 1]);
      HeldStays(Run(s, moves[..|moves| - 1]), moves[|moves| - 1]);
    }
  }

  /** A session paused just after it was resumed, before the task took notice: one event is still to come. */
  ghost predicate Woken(s: Session) {
    InRange(s) && s.point.PastPause? && !s.pauseSet && s.status != Running
  }

  lemma WokenStep(s: Session, m: Move)
    requires Woken(s) && m != Resume
    ensures var r := Act(s, m);
            (Woken(r) && r.started == s.started) || (Held(r) && |r.started| <= |s.started| + 1)
  {
  }

  lemma {:induction false} WokenRun(s: Session, moves: seq<Move>)
    requires Woken(s) && NoResume(moves)
    ensures var r := Run(s, moves);
            (Woken(r) && r.started == s.started) || (Held(r) && |r.started| <= |s.started| + 1)
    decreases |moves|
  {
    if |moves| > 0 {
      hide Held, Act, Woken;
      WokenRun(s, moves[..|moves| - 1]);
      var before, m := Run(s, moves[..|moves| - 1]), moves[|moves| - 1];
      if Held(before) {
        HeldStays(before, m);
      } else {
        WokenStep(before, m);
      }
    }
  }

  /**
   Between a pause that takes effect and the next resume at most one event starts; and none at all
   exactly if the task was not already past its wait for the pause event.
   */
  lemma PauseHolds(s: Session)
    requires Consistent(s) && s.status == Running
    ensures forall moves :: NoResume(moves) ==> |Run(PauseOf(s), moves).started| <= |s.started| + 1
    ensures (forall moves :: NoResume(moves) ==> Run(PauseOf(s), moves).started == s.started) <==> !s.point.PastPause?
  {
    var p := PauseOf(s);
    if s.point.PastPause? {
      forall moves | NoResume(moves) ensures |Run(p, moves).started| <= |s.started| + 1 {
        WokenRun(p, moves);
      }
      var one := [Task];
      assert one[..0] == [];
      assert Run(p, one[..0]) == p;
      assert NoResume(one) && |Run(p, one).started| == |s.started| + 1;
    } else {
      forall moves | NoResume(moves) ensures Run(p, moves).started == s.started {
        HeldRun(p, moves);
      }
    }
  }

  // ---- Left alone, a replay completes ----

  function Tasks(n: nat): (r: seq<Move>)
    ensures |r| == n
  {
    seq(n, _ => Task)
  }

  /** The callback of event `k` is running and nothing holds the task up. */
  ghost predicate Rolling(s: Session, k: nat) {
    InRange(s) && s.point == InCallback(k) && s.status == Running && s.pauseSet && s.mode != StepMode
  }

  lemma FirstRolls(s: Session)
    requires Consistent(s) && s.point == NotStarted && s.pauseSet && s.mode != StepMode && |s.events| > 0
    ensures Rolling(Advance(s), 0)
  {
  }

  lemma NextRolls(s: Session, k: nat)
    requires Rolling(s, k) && k + 1 < |s.events|
    ensures Rolling(Advance(Advance(s)), k + 1)
  {
  }

  lemma {:induction false} LeftAlone(s: Session, k: nat)
    requires Consistent(s) && s.point == NotStarted && s.pauseSet && s.mode != StepMode
    requires k < |s.events|
    ensures Rolling(Run(s, Tasks(2 * k + 1)), k)
  {
    hide Advance, Rolling;
    assert Tasks(2 * k + 1)[..2 * k] == Tasks(2 * k);
    if k > 0 {
      assert Tasks(2 * k)[..2 * k - 1] == Tasks(2 * (k - 1) + 1);
      LeftAlone(s, k - 1);
      NextRolls(Run(s, Tasks(2 * (k - 1) + 1)), k - 1);
    } else {
      assert Run(s, Tasks(0)) == s;
      FirstRolls(s);
    }
  }

  lemma ThenFinishes(s: Session)
    requires |s.events| > 0 && Consistent(s) && Rolling(s, |s.events| - 1)
    ensures var r := Advance(Advance(s)); r.status == Completed && r.started == s.events
  {
  }

  /** A replay in live or fast mode that nobody touches completes after two parts for each event, and one more. */
  lemma ReplayCompletes(mode: Mode, snapshot: seq<Event>)
    requires mode != StepMode
    ensures var s := Run(NewSession(mode, snapshot), Tasks(2 * |snapshot| + 1));
            s.status == Completed && s.started == InOrder(snapshot)
  {
    hide InOrder, Consistent, Advance;
    var s0, n := NewSession(mode, snapshot), |snapshot|;
    InOrderKeeps(snapshot);
    FromTheStart(mode, snapshot);
    assert Tasks(2 * n + 1)[..2 * n] == Tasks(2 * n);
    if n == 0 {
      assert Run(s0, Tasks(0)) == s0;
      AllDelivered(s0);
    } else {
      LeftAlone(s0, n - 1);
      RunConsistent(s0, Tasks(2 * (n - 1) + 1));
      assert Tasks(2 * n)[..2 * n - 1] == Tasks(2 * (n - 1) + 1);
      ThenFinishes(Run(s0, Tasks(2 * (n - 1) + 1)));
    }
  }

  lemma FromTheStart(mode: Mode, snapshot: seq<Event>)
    ensures Consistent(NewSession(mode, snapshot))
  {
  }

  lemma AllDelivered(s: Session)
    requires Consistent(s) && s.point == NotStarted && s.status == Pending && s.pauseSet && s.events == []
    ensures Advance(s).status == Completed && Advance(s).started == s.events
  {
  }

  // ---- The moment at which a pause lets one more event through ----

  lemma RunNext(s: Session, moves: seq<Move>, m: Move)
    requires InRange(s)
    ensures Run(s, moves + [m]) == Act(Run(s, moves), m)
  {
    assert (moves + [m])[..|moves|] == moves;
  }

  /** The task takes up the first event; after a pause it gets as far as the second, and is resumed. */
  function LatePause(): seq<Move> {
    [Task] + [Pause] + [Task] + [Task] + [Resume]
  }

  lemma RunOne(s: Session, m: Move)
    requires InRange(s)
    ensures Run(s, [m]) == Act(s, m)
  {
    assert [m][..0] == [];
  }

  /** The task suspended before its second event, which a pause holds back. */
  lemma HeldAtSecond(s: Session)
    requires Consistent(s) && s.point == NotStarted && s.pauseSet && s.mode == Fast && |s.events| == 2
    ensures var r := Act(Act(Act(Act(s, Task), Pause), Task), Task); r.status == Paused && r.point == AtPause(1)
  {
    var first := Act(Act(s, Task), Pause);
    assert first.status == Paused && !first.pauseSet && first.point == InCallback(0);
  }

  /** Paused between two events and resumed, a session is running with its task already past the wait. */
  lemma PastPauseIsReached(s: Session)
    requires Consistent(s) && s.point == NotStarted && s.pauseSet && s.mode == Fast && |s.events| == 2
    ensures var r := Run(s, LatePause()); r.status == Running && r.point == PastPause(1)
  {
    hide Run, Advance;
    RunOne(s, Task);
    RunNext(s, [Task], Pause);
    RunNext(s, [Task] + [Pause], Task);
    RunNext(s, [Task] + [Pause] + [Task], Task);
    RunNext(s, [Task] + [Pause] + [Task] + [Task], Resume);
    HeldAtSecond(s);
  }

  /** A session of two events in which a pause is followed by a callback. */
  lemma PauseTooLate(first: Event, second: Event)
    ensures var s := Run(NewSession(Fast, [first, second]), LatePause());
            s.status == Running && exists moves :: NoResume(moves) && Run(PauseOf(s), moves).started != s.started
  {
    hide InOrder, Run, Consistent, NoResume;
    var s0 := NewSession(Fast, [first, second]);
    FromTheStart(Fast, [first, second]);
    InOrderKeeps([first, second]);
    PastPauseIsReached(s0);
    RunConsistent(s0, LatePause());
    PauseHolds(Run(s0, LatePause()));
  }
}
