/** Closing the desktop window (gui/shutdown.go): at most one waiter and one quit, accepted
    work waited for, cancelled and drained in that order, all within the time budget. */
module CloseCoordinator {
  const DEFAULT_TIMEOUT := 5000
  const DRAIN_TIMEOUT := 2000

  /** A waiter goroutine by the point it has reached; the waits carry their deadlines. */
  datatype Waiter =
    | Graceful(deadline: nat)
    | Cancelling
    | Draining(deadline: nat)
    | Completing
    | Quitting
    | Done

  datatype Event = BecameIdle | WaitExpired | Cancelled | Drained | Quit

  /** What happened, when, and how many sessions ran at that moment. */
  datatype Mark = Mark(event: Event, at: nat, running: nat)

  /** `running` counts the sessions at work, `now` is in milliseconds; `trail` is history. */
  datatype State = State(
    waiting: bool, ready: bool, timeout: nat, waiters: seq<Waiter>,
    refusing: bool, running: nat, now: nat, deferredAt: nat, trail: seq<Mark>, releases: nat)

  function Timeout(configured: int): nat {
    if configured <= 0 then DEFAULT_TIMEOUT else configured
  }

  function Start(configured: int, running: nat): State {
    State(false, false, Timeout(configured), [], false, running, 0, 0, [], 0)
  }

  datatype Step =
    | BeforeClose
    | WaiterStep(i: nat, expired: bool)
    | SessionStarts
    | SessionEnds
    | Tick

  /** A wait ends when nothing runs or its deadline has passed, and if both are so either answer
      can come first; the steps between the waits take no time, so time only moves while every
      waiter is inside a wait. */
  predicate Enabled(s: State, step: Step) {
    match step
    case BeforeClose => true
    case WaiterStep(i, expired) =>
      i < |s.waiters| && !s.waiters[i].Done? &&
      (s.waiters[i].Graceful? || s.waiters[i].Draining? ==>
         if expired then s.now >= s.waiters[i].deadline else s.running == 0)
    case SessionStarts => !s.refusing
    case SessionEnds => s.running > 0
    case Tick => forall i :: 0 <= i < |s.waiters| ==> Idles(s, s.waiters[i])
  }

  predicate Idles(s: State, w: Waiter) {
    w.Done? || ((w.Graceful? || w.Draining?) && s.now < w.deadline)
  }

  /** BeforeClose holds the lock from the first check to the last assignment. */
  predicate Deferred(s: State) {
    !s.ready && (s.waiting || s.running > 0)
  }

  function Asked(s: State): State {
    if s.ready then s.(releases := s.releases + 1)
    else if s.waiting then s
    else if s.running == 0 then s.(refusing := true, releases := s.releases + 1)
    else s.(refusing := true, waiting := true, waiters := s.waiters + [Graceful(s.now + s.timeout)], deferredAt := s.now)
  }

  function Marked(s: State, event: Event): seq<Mark> {
    s.trail + [Mark(event, s.now, s.running)]
  }

  function Moved(s: State, w: Waiter, i: nat, expired: bool): State
    requires i < |s.waiters|
  {
    match w
    case Graceful(_) =>
      if expired then s.(waiters := s.waiters[i := Cancelling], trail := Marked(s, WaitExpired))
      else s.(waiters := s.waiters[i := Completing], trail := Marked(s, BecameIdle))
    case Cancelling => s.(waiters := s.waiters[i := Draining(s.now + DRAIN_TIMEOUT)], trail := Marked(s, Cancelled))
    case Draining(_) => s.(waiters := s.waiters[i := Completing], trail := Marked(s, Drained))
    case Completing =>
      if s.ready then s.(waiters := s.waiters[i := Done])
      else s.(ready := true, waiting := false, waiters := s.waiters[i := Quitting])
    case Quitting => s.(waiters := s.waiters[i := Done], trail := Marked(s, Quit))
    case Done => s
  }

  function Apply(s: State, step: Step): State
    requires Enabled(s, step)
  {
    match step
    case BeforeClose => Asked(s)
    case WaiterStep(i, expired) => Moved(s, s.waiters[i], i, expired)
    case SessionStarts => s.(running := s.running + 1)
    case SessionEnds => s.(running := s.running - 1)
    case Tick => s.(now := s.now + 1)
  }

  // ---- what every step keeps ----

  /** The graceful wait ran its full time before it was given up. */
  predicate Expired(s: State, mark: Mark) {
    mark.event == WaitExpired && mark.at == s.deferredAt + s.timeout
  }

  predicate CancelledAtOnce(s: State, trail: seq<Mark>) {
    |trail| >= 2 && Expired(s, trail[0]) && trail[1].event == Cancelled && trail[1].at == trail[0].at
  }

  /** The drain wait ended because nothing ran any more, or after its full time. */
  predicate DrainedOut(s: State, trail: seq<Mark>) {
    && |trail| >= 3 && CancelledAtOnce(s, trail) && trail[2].event == Drained
    && trail[1].at <= trail[2].at <= trail[1].at + DRAIN_TIMEOUT
    && (trail[2].running == 0 || trail[2].at == trail[1].at + DRAIN_TIMEOUT)
  }

  predicate IdleInTime(s: State, trail: seq<Mark>) {
    |trail| >= 1 && trail[0].event == BecameIdle && trail[0].running == 0 && trail[0].at <= s.deferredAt + s.timeout
  }

  /** Nothing runs, or the wait, the cancellation and the drain are all behind. */
  predicate Finished(s: State, trail: seq<Mark>) {
    || (|trail| == 1 && IdleInTime(s, trail) && s.running == 0)
    || (|trail| == 3 && DrainedOut(s, trail) && s.running <= trail[2].running)
  }

  /** What has happened by the time the waiter is at this point. */
  predicate Matches(s: State, w: Waiter) {
    match w
    case Graceful(_) => s.trail == []
    case Cancelling => |s.trail| == 1 && Expired(s, s.trail[0])
    case Draining(_) => |s.trail| == 2 && CancelledAtOnce(s, s.trail)
    case Completing => Finished(s, s.trail)
    case Quitting => Finished(s, s.trail)
    case Done => s.trail != [] && s.trail[|s.trail| - 1].event == Quit && Finished(s, s.trail[..|s.trail| - 1])
  }

  predicate InTime(s: State, w: Waiter) {
    match w
    case Graceful(deadline) => s.now <= deadline == s.deferredAt + s.timeout
    case Cancelling => s.now == s.deferredAt + s.timeout
    case Draining(deadline) => s.deferredAt + s.timeout <= s.now <= deadline == s.deferredAt + s.timeout + DRAIN_TIMEOUT
    case Completing => s.now <= s.deferredAt + s.timeout + DRAIN_TIMEOUT
    case Quitting => s.now <= s.deferredAt + s.timeout + DRAIN_TIMEOUT
    case Done => true
  }

  predicate Sound(s: State) {
    && |s.waiters| <= 1
    && (s.waiting || s.ready <==> |s.waiters| == 1)
    && !(s.waiting && s.ready)
    && (|s.waiters| == 0 ==> s.trail == [])
    && (|s.waiters| == 1 ==>
          var w := s.waiters[0];
          s.refusing && Matches(s, w) && InTime(s, w) && (s.ready <==> w.Quitting? || w.Done?))
  }

  lemma StartIsSound(configured: int, running: nat)
    ensures Sound(Start(configured, running))
  {
  }

  lemma StepKeepsSound(s: State, step: Step)
    requires Sound(s) && Enabled(s, step)
    ensures Sound(Apply(s, step))
  {
    if step.WaiterStep? {
      WaiterKeepsSound(s, step.expired);
    }
  }

  lemma WaiterKeepsSound(s: State, expired: bool)
    requires Sound(s) && Enabled(s, WaiterStep(0, expired))
    ensures Sound(Apply(s, WaiterStep(0, expired)))
  {
    var t := Apply(s, WaiterStep(0, expired));
    if s.waiters[0].Quitting? {
      assert t.trail[..|t.trail| - 1] == s.trail;
    }
  }

  predicate Executes(s: State, steps: seq<Step>)
    decreases |steps|
  {
    steps == [] || (Enabled(s, steps[0]) && Executes(Apply(s, steps[0]), steps[1..]))
  }

  function Run(s: State, steps: seq<Step>): State
    requires Executes(s, steps)
    decreases |steps|
  {
    if steps == [] then s else Run(Apply(s, steps[0]), steps[1..])
  }

  lemma {:induction false} RunIsSound(s: State, steps: seq<Step>)
    requires Sound(s) && Executes(s, steps)
    ensures Sound(Run(s, steps)) && Run(s, steps).timeout == s.timeout
    decreases |steps|
  {
    if steps != [] {
      StepKeepsSound(s, steps[0]);
      RunIsSound(Apply(s, steps[0]), steps[1..]);
    }
  }

  function Quits(trail: seq<Mark>): nat {
    if trail == [] then 0 else Quits(trail[..|trail| - 1]) + if trail[|trail| - 1].event == Quit then 1 else 0
  }

  /** However the close requests interleave with the rest, there is never a second waiter and
      never a second quit. */
  lemma OneWaiterOneQuit(configured: int, running: nat, steps: seq<Step>)
    requires Executes(Start(configured, running), steps)
    ensures var s := Run(Start(configured, running), steps); |s.waiters| <= 1 && Quits(s.trail) <= 1
  {
    StartIsSound(configured, running);
    RunIsSound(Start(configured, running), steps);
    var s := Run(Start(configured, running), steps);
    if |s.waiters| == 1 && s.waiters[0].Done? {
      QuitsOf(s.trail[..|s.trail| - 1]);
    } else {
      QuitsOf(s.trail);
    }
  }

  lemma QuitsOf(trail: seq<Mark>)
    requires |trail| <= 3 && forall i :: 0 <= i < |trail| ==> trail[i].event != Quit
    ensures Quits(trail) == 0
  {
    if trail != [] {
      QuitsOf(trail[..|trail| - 1]);
    }
  }

  /** A request is granted, and the program quits, only when no session runs, or after the
      graceful wait has run its full time, everything was cancelled at that moment, and the
      drain wait has run its full time too: with sessions at work neither wait is cut short. */
  lemma ReleasedOnlyWhenSafe(configured: int, running: nat, steps: seq<Step>, step: Step)
    requires Executes(Start(configured, running), steps) && Enabled(Run(Start(configured, running), steps), step)
    requires var s := Run(Start(configured, running), steps);
             Apply(s, step).releases != s.releases || Quits(Apply(s, step).trail) > Quits(s.trail)
    ensures var s := Run(Start(configured, running), steps);
            s.running == 0 || (DrainedOut(s, s.trail) && s.trail[2].at == s.deferredAt + Timeout(configured) + DRAIN_TIMEOUT)
  {
    StartIsSound(configured, running);
    RunIsSound(Start(configured, running), steps);
  }

  /** Once a close is deferred, the quit comes within the timeout and two more seconds: until
      then time cannot pass that point. */
  lemma QuitComesInTime(configured: int, running: nat, steps: seq<Step>)
    requires Executes(Start(configured, running), steps)
    ensures var s := Run(Start(configured, running), steps);
            |s.waiters| == 1 && !s.waiters[0].Done? ==>
              s.now <= s.deferredAt + Timeout(configured) + DRAIN_TIMEOUT
              && (s.now == s.deferredAt + Timeout(configured) + DRAIN_TIMEOUT ==> !Enabled(s, Tick) && Enabled(s, WaiterStep(0, true)))
  {
    StartIsSound(configured, running);
    RunIsSound(Start(configured, running), steps);
    var s := Run(Start(configured, running), steps);
    if |s.waiters| == 1 && s.now == s.deferredAt + Timeout(configured) + DRAIN_TIMEOUT && !s.waiters[0].Done? {
      assert !Idles(s, s.waiters[0]);
    }
  }

  function StepsLeft(w: Waiter): nat {
    match w
    case Graceful(_) => 5
    case Cancelling => 4
    case Draining(_) => 3
    case Completing => 2
    case Quitting => 1
    case Done => 0
  }

  /** Every step of the waiter brings the quit nearer, and none of the others takes it back. */
  lemma WaiterProgresses(s: State, step: Step)
    requires Sound(s) && Enabled(s, step) && |s.waiters| == 1
    ensures |Apply(s, step).waiters| == 1
    ensures if step.WaiterStep? then StepsLeft(Apply(s, step).waiters[0]) < StepsLeft(s.waiters[0])
            else Apply(s, step).waiters == s.waiters
  {
  }

  /** The coordinator object: the fields its mutex guards, whether it has told the turn control
      to refuse new input, and counts of what it started. */
  class Coordinator {
    var waiting: bool
    var ready: bool
    var refusing: bool
    const timeout: nat
    var waiters: nat
    var quits: nat

    /** The part of a state these fields show, when a session runs or none does. */
    ghost function View(running: bool): State
      reads this
    {
      State(waiting, ready, timeout, [], refusing, if running then 1 else 0, 0, 0, [], 0)
    }

    constructor (configured: int)
      ensures timeout == Timeout(configured) && !waiting && !ready && !refusing && waiters == 0 && quits == 0
    {
      timeout := if configured <= 0 then DEFAULT_TIMEOUT else configured;
      waiting, ready, refusing, waiters, quits := false, false, false, 0, 0;
    }

    /** True when the native close must be prevented; `running` is the turn control's answer,
        asked for only after new input is refused. */
    method BeforeClose(running: bool) returns (prevented: bool)
      modifies this
      ensures var next := Asked(old(View(running)));
              && waiting == next.waiting && ready == next.ready && refusing == next.refusing
              && waiters == old(waiters) + |next.waiters| && quits == old(quits)
      ensures !ready && !waiting ==> refusing && !running
      ensures prevented == Deferred(old(View(running)))
    {
      if ready {
        return false;
      }
      if waiting {
        return true;
      }
      refusing := true;
      if !running {
        return false;
      }
      waiting := true;
      waiters := waiters + 1;
      prevented := true;
    }

    method CompleteClose()
      modifies this
      ensures var next := Moved(old(View(false)).(waiters := [Completing]), Completing, 0, false);
              && waiting == next.waiting && ready == next.ready && waiters == old(waiters) && refusing == old(refusing)
              && quits == old(quits) + (if next.waiters[0].Quitting? then 1 else 0)
    {
      if ready {
        return;
      }
      ready := true;
      waiting := false;
      quits := quits + 1;
    }
  }
}
