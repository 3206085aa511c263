/** That a replay gets on: what a step, a resume or an abort sets going again. */
module ReplayProgress {
  import opened Events
  import opened Replay

  lemma {:induction false} RunConcat(s: Session, a: seq<Move>, b: seq<Move>)
    requires InRange(s)
    ensures Run(s, a + b) == Run(Run(s, a), b)
    decreases |b|
  {
    hide Act, InRange;
    if |b| == 0 {
      assert a + b == a;
    } else {
      assert (a + b)[..|a + b| - 1] == a + b[..|b| - 1];
      RunConcat(s, a, b[..|b| - 1]);
    }
  }

  lemma NextTask(s: Session, n: nat)
    requires InRange(s) && n > 0
    ensures Run(s, Tasks(n)) == Run(Advance(s), Tasks(n - 1))
  {
    hide Advance;
    RunOne(s, Task);
    assert Tasks(n) == [Task] + Tasks(n - 1);
    RunConcat(s, [Task], Tasks(n - 1));
  }

  lemma NoTask(s: Session)
    requires InRange(s)
    ensures Run(s, Tasks(0)) == s
  {
  }

  // ---- Step mode ----

  /** A call of `step` between any two of the given numbers of the task's parts. */
  function Stepping(parts: seq<nat>): seq<Move> {
    if |parts| == 0 then []
    else if |parts| == 1 then Tasks(parts[0])
    else Stepping(parts[..|parts| - 1]) + ([Step] + Tasks(parts[|parts| - 1]))
  }

  /** The callback of event `i` is done and the task waits for a step. */
  ghost predicate Waiting(s: Session, i: nat) {
    && InRange(s) && s.point == AtStep(i) && s.status == Running && s.pauseSet && s.mode == StepMode
    && i < |s.events| && s.started == s.events[..i + 1]
  }

  ghost predicate Done(s: Session) {
    s.point == Finished && s.status == Completed && s.started == s.events
  }

  lemma {:induction false} StaysPut(s: Session, n: nat)
    requires InRange(s) && (s.point.AtStep? || s.point == Finished)
    ensures Run(s, Tasks(n)) == s
  {
    if n > 0 {
      NextTask(s, n);
      StaysPut(s, n - 1);
    } else {
      NoTask(s);
    }
  }

  /** From the start: the first callback, and then the task waits. */
  lemma FirstPart(s: Session, n: nat)
    requires Consistent(s) && s.point == NotStarted && s.pauseSet && s.mode == StepMode && n >= 2
    ensures var r := Run(s, Tasks(n)); if |s.events| == 0 then Done(r) else Waiting(r, 0)
    ensures Run(s, Tasks(n)).events == s.events
  {
    hide Run;
    NextTask(s, n);
    NextTask(Advance(s), n - 1);
    StaysPut(Advance(Advance(s)), n - 2);
  }

  lemma StepActs(s: Session, i: nat)
    requires Waiting(s, i)
    ensures var r := Advance(Advance(Act(s, Step)));
            r.events == s.events && if i + 1 == |s.events| then Done(r) else Waiting(r, i + 1)
  {
    assert i + 1 == |s.events| ==> s.events[..i + 1] == s.events;
    assert i + 1 < |s.events| ==> s.events[..i + 1] + [s.events[i + 1]] == s.events[..i + 2];
  }

  lemma AtRest(s: Session, i: nat)
    requires InRange(s) && (Done(s) || Waiting(s, i))
    ensures s.point.AtStep? || s.point == Finished
  {
  }

  lemma WaitingInRange(s: Session, i: nat)
    requires Waiting(s, i)
    ensures InRange(s)
  {
  }

  /** A step starts the next callback, or completes the session when there is none. */
  lemma StepPart(s: Session, i: nat, n: nat)
    requires Waiting(s, i) && n >= 2
    ensures var r := Run(s, [Step] + Tasks(n)); if i + 1 == |s.events| then Done(r) else Waiting(r, i + 1)
    ensures Run(s, [Step] + Tasks(n)).events == s.events
  {
    hide Run, Act, Advance, Waiting, Done, InRange;
    WaitingInRange(s, i);
    RunConcat(s, [Step], Tasks(n));
    RunOne(s, Step);
    var woken := Act(s, Step);
    NextTask(woken, n);
    NextTask(Advance(woken), n - 1);
    StepActs(s, i);
    AtRest(Advance(Advance(woken)), i + 1);
    StaysPut(Advance(Advance(woken)), n - 2);
  }

  lemma StepAfterwards(s: Session, n: nat)
    requires InRange(s) && Done(s)
    ensures Done(Run(s, [Step] + Tasks(n))) && Run(s, [Step] + Tasks(n)).events == s.events
  {
    RunConcat(s, [Step], Tasks(n));
    RunOne(s, Step);
    hide Run;
    StaysPut(Act(s, Step), n);
  }

  /**
   In step mode, when nobody pauses or aborts, each call of `step` that finds the task waiting starts one
   more callback: after `k` calls there are `k + 1`, or as many as events, and then the session is complete.
   */
  lemma {:induction false} StepByStep(s: Session, parts: seq<nat>)
    requires Consistent(s) && s.point == NotStarted && s.pauseSet && s.mode == StepMode
    requires |parts| > 0 && forall i :: 0 <= i < |parts| ==> parts[i] >= 2
    ensures var r := Run(s, Stepping(parts));
            && r.events == s.events
            && if |parts| > |s.events| then Done(r) else Waiting(r, |parts| - 1)
    decreases |parts|
  {
    hide Run, Consistent, Waiting, Done;
    if |parts| == 1 {
      FirstPart(s, parts[0]);
    } else {
      var front, n := parts[..|parts| - 1], parts[|parts| - 1];
      StepByStep(s, front);
      var before := Run(s, Stepping(front));
      ConsistentInRange(s);
      RunConcat(s, Stepping(front), [Step] + Tasks(n));
      if |front| > |s.events| {
        StepAfterwards(before, n);
      } else {
        StepPart(before, |front| - 1, n);
      }
    }
  }

  lemma ConsistentInRange(s: Session)
    requires Consistent(s)
    ensures InRange(s)
  {
  }

  /** So after `k` calls of `step`, each while the task waits, `k + 1` callbacks were started, or one for each event. */
  lemma StepsStart(snapshot: seq<Event>, parts: seq<nat>)
    requires |parts| > 0 && forall i :: 0 <= i < |parts| ==> parts[i] >= 2
    ensures var r, k := Run(NewSession(StepMode, snapshot), Stepping(parts)), |parts| - 1;
            && |r.started| == (if k + 1 < |snapshot| then k + 1 else |snapshot|)
            && (k >= |snapshot| <==> r.status == Completed)
  {
    hide InOrder, Run, Consistent;
    var s := NewSession(StepMode, snapshot);
    FromTheStart(StepMode, snapshot);
    InOrderKeeps(snapshot);
    StepByStep(s, parts);
  }

  /** A step made while a callback runs is lost: the task forgets it before it waits. */
  lemma StepIsLost(s: Session, n: nat)
    requires InRange(s) && s.mode == StepMode && s.point.InCallback?
    ensures Run(s, [Step] + Tasks(n)).started == s.started
  {
    RunConcat(s, [Step], Tasks(n));
    RunOne(s, Step);
    var stepped := Act(s, Step);
    hide Run;
    if n > 0 {
      NextTask(stepped, n);
      StaysPut(Advance(stepped), n - 1);
    } else {
      NoTask(stepped);
    }
  }

  // ---- Running on ----

  /** The task's parts that are left, at most. */
  function Left(s: Session): nat
    requires InRange(s)
  {
    match s.point
    case PastPause(i) => 2 * (|s.events| - i) + 1
    case InCallback(i) => 2 * (|s.events| - i)
    case Sleeping(i) => 2 * (|s.events| - i) - 1
    case _ => 0
  }

  lemma RunsOn(s: Session)
    requires Consistent(s) && s.mode != StepMode && s.status == Running
    ensures var r := Advance(s);
            && Consistent(r) && r.mode == s.mode && r.events == s.events && Left(s) > 0
            && (r.status == Completed || (r.status == Running && Left(r) < Left(s)))
  {
    AdvanceFitting(s);
    AdvanceCounted(s);
  }

  lemma CompletedRests(s: Session)
    requires Consistent(s) && s.status == Completed
    ensures s.point == Finished && s.started == s.events
  {
  }

  lemma {:induction false} Completes(s: Session, n: nat)
    requires Consistent(s) && s.mode != StepMode && (s.status == Completed || (s.status == Running && n >= Left(s)))
    ensures var r := Run(s, Tasks(n)); r.status == Completed && r.started == s.events
    decreases n
  {
    ConsistentInRange(s);
    hide Run, Consistent, Advance, InRange, Left;
    if s.status == Completed {
      CompletedRests(s);
      StaysPut(s, n);
    } else {
      RunsOn(s);
      NextTask(s, n);
      Completes(Advance(s), n - 1);
    }
  }

  lemma ResumedRuns(s: Session)
    requires Consistent(s) && s.status == Paused
    ensures var r := Act(s, Resume);
            && Consistent(r) && r.status == Running && r.mode == s.mode && r.events == s.events && Left(r) <= 2 * |s.events| + 1
  {
    ActConsistent(s, Resume);
  }

  /** Whatever happened before, a paused session in live or fast mode that is resumed and then left alone completes. */
  lemma ResumedCompletes(mode: Mode, snapshot: seq<Event>, moves: seq<Move>)
    requires mode != StepMode && Run(NewSession(mode, snapshot), moves).status == Paused
    ensures var r := Run(NewSession(mode, snapshot), moves + ([Resume] + Tasks(2 * |snapshot| + 1)));
            r.status == Completed && r.started == InOrder(snapshot)
  {
    hide InOrder, Run, Consistent, Act, Left;
    var s0 := NewSession(mode, snapshot);
    FromTheStart(mode, snapshot);
    InOrderKeeps(snapshot);
    RunConsistent(s0, moves);
    var s := Run(s0, moves);
    ConsistentInRange(s);
    RunConcat(s0, moves, [Resume] + Tasks(2 * |snapshot| + 1));
    RunConcat(s, [Resume], Tasks(2 * |snapshot| + 1));
    RunOne(s, Resume);
    ResumedRuns(s);
    Completes(Act(s, Resume), 2 * |snapshot| + 1);
  }

  // ---- After an abort ----

  /** Two parts after an abort the task has ended, or it waits for a step in vain. */
  lemma AbortedAdvance(s: Session)
    requires Consistent(s) && s.point != NotStarted
    ensures var r := Advance(Advance(Act(s, Abort)));
            r.point == (if s.mode == StepMode && s.point.InCallback? then AtStep(s.point.i) else Finished)
  {
    hide Counted;
    var aborted := Act(s, Abort);
    assert aborted.status == Aborted && aborted.pauseSet && !aborted.point.AtPause? && !aborted.point.AtStep?;
  }

  lemma AbortThen(s: Session, n: nat)
    requires InRange(s)
    ensures Run(s, [Abort] + Tasks(n)) == Run(Act(s, Abort), Tasks(n))
  {
    hide Act, InRange;
    RunOne(s, Abort);
    RunConcat(s, [Abort], Tasks(n));
  }

  /** Two parts of the task later. */
  lemma TwoParts(s: Session, n: nat)
    requires InRange(s) && n >= 2
    ensures Run(s, Tasks(n)) == Run(Advance(Advance(s)), Tasks(n - 2))
  {
    hide Advance, InRange;
    NextTask(s, n);
    NextTask(Advance(s), n - 1);
  }

  lemma WaitsForGood(s: Session, n: nat)
    requires Consistent(s) && s.mode == StepMode && s.point.InCallback?
    ensures Run(s, [Abort] + Tasks(n)).point != Finished
  {
    var aborted := Act(s, Abort);
    assert Advance(aborted).point.AtStep? && aborted.point != Finished;
    hide Run, Advance, Act, Consistent;
    AbortThen(s, n);
    if n == 0 {
      NoTask(aborted);
    } else {
      NextTask(aborted, n);
      StaysPut(Advance(aborted), n - 1);
    }
  }

  lemma EndsInTwo(s: Session)
    requires Consistent(s) && s.point != NotStarted && !(s.mode == StepMode && s.point.InCallback?)
    ensures Run(s, [Abort] + Tasks(2)).point == Finished
  {
    AbortedAdvance(s);
    ConsistentInRange(s);
    hide Run, Advance, Act, Consistent, InRange;
    AbortThen(s, 2);
    TwoParts(Act(s, Abort), 2);
    NoTask(Advance(Advance(Act(s, Abort))));
  }

  /**
   After an abort the task ends, exactly unless it is aborted in step mode during a callback: then it
   forgets the wake-up before it waits, and waits for good.
   */
  lemma AbortEnds(s: Session)
    requires Consistent(s) && s.point != NotStarted
    ensures (exists n: nat :: Run(s, [Abort] + Tasks(n)).point == Finished) <==> !(s.mode == StepMode && s.point.InCallback?)
  {
    ConsistentInRange(s);
    hide Run, Act, Consistent, InRange;
    if s.mode == StepMode && s.point.InCallback? {
      forall n: nat ensures Run(s, [Abort] + Tasks(n)).point != Finished {
        WaitsForGood(s, n);
      }
    } else {
      EndsInTwo(s);
    }
  }
}
