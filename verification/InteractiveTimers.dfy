/**
 The two-party start barrier of internal/execute/interactive_timeout.go.  Each
 lock-held section is one atomic step; timer firings, their callbacks and context
 cancellation are steps of their own, and a run is any interleaving of steps.
 */
module InteractiveTimers {
  import opened Common

  /** A timer created by AfterFunc: `Fired` once its callback has been handed to a goroutine. */
  datatype Timer = Unarmed | Pending | Fired | Cancelled

  /** What the mutex protects. */
  datatype Barrier = Barrier(
    ready: seq<bool>, finished: seq<bool>, started: bool, stopped: bool,
    startup: Timer, execution: seq<Timer>, releases: nat)

  const ROLES := 2

  predicate Shaped(b: Barrier) {
    |b.ready| == ROLES && |b.finished| == ROLES && |b.execution| == ROLES
  }

  /** The timer after a call of Stop; the call succeeds exactly on a pending timer. */
  function Halt(t: Timer): Timer {
    if t.Pending? then Cancelled else t
  }

  function Fresh(): Barrier {
    Barrier([false, false], [false, false], false, false, Pending, [Unarmed, Unarmed], 0)
  }

  /** `targetReady`; `early` and `late` are its two readings of the context. */
  function ReadyStep(b: Barrier, role: nat, early: bool, late: bool): Barrier
    requires Shaped(b) && role < ROLES
  {
    if b.stopped || b.started || early then b
    else
      var b1 := b.(ready := b.ready[role := true]);
      if !b1.ready[0] || !b1.ready[1] then b1
      else if !b1.startup.Pending? then b1.(stopped := true)
      else if late then b1.(startup := Cancelled, stopped := true)
      else b1.(startup := Cancelled, execution := [Pending, Pending], started := true, releases := b1.releases + 1)
  }

  function FinishStep(b: Barrier, role: nat): Barrier
    requires Shaped(b) && role < ROLES
  {
    var b1 := b.(finished := b.finished[role := true]);
    if b.started then b1.(execution := b.execution[role := Halt(b.execution[role])])
    else b1.(stopped := true, startup := Halt(b.startup))
  }

  /** An execution timer that fires now still ends its target's run. */
  predicate Active(b: Barrier, role: nat)
    requires Shaped(b) && role < ROLES
  {
    !b.stopped && !b.finished[role]
  }

  function StopStep(b: Barrier): Barrier
    requires Shaped(b)
  {
    b.(stopped := true, startup := Halt(b.startup), execution := [Halt(b.execution[0]), Halt(b.execution[1])])
  }

  /** The barrier object; a method that the source runs outside the lock takes what it observed as arguments. */
  class InteractiveExecutionTimers {
    var ready: seq<bool>
    var finished: seq<bool>
    var started: bool
    var stopped: bool
    var startup: Timer
    var execution: seq<Timer>
    var releases: nat

    function State(): Barrier
      reads this
    {
      Barrier(ready, finished, started, stopped, startup, execution, releases)
    }

    constructor ()
      ensures State() == Fresh()
    {
      ready, finished, started, stopped := [false, false], [false, false], false, false;
      startup, execution, releases := Pending, [Unarmed, Unarmed], 0;
    }

    method TargetReady(role: nat, early: bool, late: bool)
      requires Shaped(State()) && role < ROLES
      modifies this
      ensures State() == ReadyStep(old(State()), role, early, late)
    {
      if stopped || started || early { return; }
      ready := ready[role := true];
      if !ready[0] || !ready[1] { return; }
      var inTime := StopStartup();
      if !inTime {
        stopped := true;
        return;
      }
      if late {
        stopped := true;
        return;
      }
      for i := 0 to |execution|
        invariant |execution| == ROLES && forall j :: 0 <= j < i ==> execution[j] == Pending
        invariant State() == ReadyStep(old(State()), role, early, late)
          .(execution := execution, started := false, releases := old(releases))
      {
        execution := execution[i := Pending];
      }
      started := true;
      releases := releases + 1;
    }

    method StopStartup() returns (inTime: bool)
      modifies this`startup
      ensures inTime == old(startup).Pending? && startup == Halt(old(startup))
    {
      inTime := startup.Pending?;
      startup := Halt(startup);
    }

    /** Returns whether the caller has to run the startup abort after unlocking. */
    method Finish(role: nat) returns (abort: bool)
      requires Shaped(State()) && role < ROLES
      modifies this
      ensures State() == FinishStep(old(State()), role)
      ensures abort == (!old(started) && !old(stopped))
    {
      finished := finished[role := true];
      if started {
        execution := execution[role := Halt(execution[role])];
        return false;
      }
      abort := !stopped;
      stopped := true;
      var _ := StopStartup();
    }

    method Stop()
      requires Shaped(State())
      modifies this
      ensures State() == StopStep(old(State()))
    {
      stopped := true;
      var _ := StopStartup();
      for i := 0 to |execution|
        invariant |execution| == ROLES && stopped
        invariant State() == StopStep(old(State())).(execution := execution)
        invariant forall j :: 0 <= j < ROLES ==> execution[j] == if j < i then Halt(old(execution)[j])
          else old(execution)[j]
      {
        execution := execution[i := Halt(execution[i])];
      }
    }

    /** The locked check an execution timer's callback makes before it reports the expiry. */
    method CheckExpiry(role: nat) returns (active: bool)
      requires Shaped(State()) && role < ROLES
      ensures active == Active(State(), role)
    {
      active := !stopped && !finished[role];
    }
  }

  // The whole system: the barrier, the context, and calls that happen outside the lock.

  datatype System = System(
    b: Barrier,
    ctxDone: bool,
    owed: nat,                        // aborts decided by `finish` and not yet called
    aborts: nat,                      // runs of the startup-abort body, which is wrapped in OnceFunc
    verdict: seq<Option<bool>>,       // what each execution callback's locked check saw
    expiries: seq<nat>)               // calls of each role's expiry function

  datatype Event =
    | Ready(role: nat, cancelled: bool)   // `cancelled`: the context is cancelled between its two readings
    | Finish(role: nat)
    | CallAbort
    | Stop
    | Cancel
    | FireStartup
    | RunStartup
    | FireExecution(role: nat)
    | CheckExecution(role: nat)
    | Expire(role: nat)

  predicate IsEvent(e: Event) {
    e.Ready? || e.Finish? || e.FireExecution? || e.CheckExecution? || e.Expire? ==> e.role < ROLES
  }

  predicate Sized(s: System) {
    Shaped(s.b) && |s.verdict| == ROLES && |s.expiries| == ROLES
  }

  function Once(aborts: nat): nat {
    if aborts == 0 then 1 else aborts
  }

  /** One step; an event that cannot happen in `s` changes nothing. */
  function Next(s: System, e: Event): (s': System)
    requires Sized(s) && IsEvent(e)
    ensures Sized(s')
  {
    match e
    case Ready(role, cancelled) =>
      s.(b := ReadyStep(s.b, role, s.ctxDone, s.ctxDone || cancelled), ctxDone := s.ctxDone || cancelled)
    case Finish(role) =>
      s.(b := FinishStep(s.b, role), owed := if s.b.started || s.b.stopped then s.owed else s.owed + 1)
    case CallAbort => if s.owed == 0 then s else s.(owed := s.owed - 1, aborts := Once(s.aborts))
    case Stop => s.(b := StopStep(s.b))
    case Cancel => s.(ctxDone := true)
    case FireStartup => if s.b.startup.Pending? then s.(b := s.b.(startup := Fired)) else s
    case RunStartup => if s.b.startup.Fired? then s.(aborts := Once(s.aborts)) else s
    case FireExecution(role) =>
      if s.b.execution[role].Pending? then s.(b := s.b.(execution := s.b.execution[role := Fired])) else s
    case CheckExecution(role) =>
      if s.b.execution[role].Fired? && s.verdict[role].None? then
        s.(verdict := s.verdict[role := Some(Active(s.b, role))])
      else s
    case Expire(role) =>
      if s.verdict[role] == Some(true) && s.expiries[role] == 0 then s.(expiries := s.expiries[role := 1]) else s
  }

  ghost predicate IsRun(run: seq<Event>) {
    forall i :: 0 <= i < |run| ==> IsEvent(run[i])
  }

  function Begin(): System {
    System(Fresh(), false, 0, 0, [None, None], [0, 0])
  }

  function After(run: seq<Event>): (s: System)
    requires IsRun(run)
    ensures Sized(s)
  {
    if run == [] then Begin() else Next(After(run[..|run| - 1]), run[|run| - 1])
  }

  /** Holds between any two steps. */
  predicate Inv(s: System) {
    && Sized(s)
    && s.b.releases == (if s.b.started then 1 else 0)
    && (s.b.started ==> s.b.ready[0] && s.b.ready[1] && s.b.startup.Cancelled? && s.owed == 0 && s.aborts == 0)
    && s.aborts <= 1
    && (s.owed > 0 ==> s.b.stopped)
    && (s.aborts > 0 ==> s.b.stopped || s.b.startup.Fired?)
    && (!s.b.started ==> s.b.execution == [Unarmed, Unarmed])
    && forall i :: 0 <= i < ROLES ==>
         && (s.verdict[i].Some? ==> s.b.execution[i].Fired?)
         && s.expiries[i] <= 1 && (s.expiries[i] > 0 ==> s.verdict[i] == Some(true))
  }

  lemma {:induction false} ReadyKeepsInv(s: System, e: Event)
    requires Inv(s) && IsEvent(e) && e.Ready?
    ensures Inv(Next(s, e))
  {
  }

  lemma {:induction false} FinishKeepsInv(s: System, e: Event)
    requires Inv(s) && IsEvent(e) && (e.Finish? || e.Stop?)
    ensures Inv(Next(s, e))
  {
  }

  lemma {:induction false} NextKeepsInv(s: System, e: Event)
    requires Inv(s) && IsEvent(e)
    ensures Inv(Next(s, e))
  {
    if e.Ready? {
      ReadyKeepsInv(s, e);
    } else if e.Finish? || e.Stop? {
      FinishKeepsInv(s, e);
    }
  }

  lemma {:induction false} RunKeepsInv(run: seq<Event>)
    requires IsRun(run)
    ensures Inv(After(run))
  {
    if run != [] {
      RunKeepsInv(run[..|run| - 1]);
      NextKeepsInv(After(run[..|run| - 1]), run[|run| - 1]);
    }
  }

  /** In every interleaving: at most one release, never a release and a startup abort, at most one expiry a role. */
  lemma {:induction false} BarrierSafety(run: seq<Event>)
    requires IsRun(run)
    ensures var s := After(run);
            && s.b.releases <= 1 && s.aborts <= 1
            && (s.b.releases == 0 || s.aborts == 0)
            && (s.b.releases == 1 ==> s.b.ready[0] && s.b.ready[1])
            && forall i :: 0 <= i < ROLES ==> s.expiries[i] <= 1 && (s.expiries[i] > 0 ==> s.b.releases == 1)
  {
    RunKeepsInv(run);
  }

  /** What a role's execution timer says about the barrier, and the startup timer likewise. */
  predicate TimersFollow(b: Barrier)
    requires Shaped(b)
  {
    && (forall i :: 0 <= i < ROLES ==>
          && (b.execution[i].Unarmed? <==> !b.started)
          && (b.execution[i].Pending? ==> Active(b, i))
          && (b.execution[i].Cancelled? ==> !Active(b, i)))
    && (b.startup.Pending? ==> !b.started && !b.stopped && !b.finished[0] && !b.finished[1])
    && (b.startup.Cancelled? ==> b.started || b.stopped)
    && (b.finished[0] || b.finished[1] ==> b.started || b.stopped)
    && !b.startup.Unarmed?
  }

  lemma {:induction false} NextFollows(s: System, e: Event)
    requires Sized(s) && IsEvent(e) && TimersFollow(s.b)
    ensures TimersFollow(Next(s, e).b)
  {
  }

  /**
   In every run a release arms both execution timers, and one that has not fired is halted exactly when its target has
   finished or the barrier has been stopped; the startup timer runs until the release or a stop.
   */
  lemma {:induction false} TimersExactly(run: seq<Event>)
    requires IsRun(run)
    ensures TimersFollow(After(run).b)
  {
    if run != [] {
      TimersExactly(run[..|run| - 1]);
      NextFollows(After(run[..|run| - 1]), run[|run| - 1]);
    }
  }

  /** The execution check of `role` runs at step `m` and passes: released, not stopped, the role unfinished. */
  ghost predicate PassesCheck(run: seq<Event>, m: nat, role: nat)
    requires IsRun(run) && role < ROLES
  {
    && m < |run| && run[m] == CheckExecution(role)
    && var s := After(run[..m]);
       s.b.releases == 1 && Active(s.b, role) && s.b.execution[role].Fired? && s.verdict[role].None?
  }

  lemma {:induction false} VerdictComesFromCheck(run: seq<Event>, role: nat) returns (m: nat)
    requires IsRun(run) && role < ROLES && After(run).verdict[role] == Some(true)
    ensures PassesCheck(run, m, role)
  {
    var init, last := run[..|run| - 1], run[|run| - 1];
    if After(init).verdict[role] == Some(true) {
      m := VerdictComesFromCheck(init, role);
      assert run[..m] == init[..m];
    } else {
      RunKeepsInv(init);
      VerdictNeedsCheck(After(init), last, role);
      m := |init|;
    }
  }

  lemma {:induction false} VerdictNeedsCheck(s: System, e: Event, role: nat)
    requires Inv(s) && IsEvent(e) && role < ROLES
    requires s.verdict[role] != Some(true) && Next(s, e).verdict[role] == Some(true)
    ensures e == CheckExecution(role) && s.b.releases == 1 && Active(s.b, role)
    ensures s.b.execution[role].Fired? && s.verdict[role].None?
  {
  }

  /** An expiry is reported only after a locked check of that role that passed. */
  lemma {:induction false} ExpiryWasChecked(run: seq<Event>, role: nat) returns (m: nat)
    requires IsRun(run) && role < ROLES && After(run).expiries[role] > 0
    ensures PassesCheck(run, m, role)
  {
    RunKeepsInv(run);
    m := VerdictComesFromCheck(run, role);
  }

  /** The barrier can no longer open. */
  predicate Doomed(s: System)
    requires Sized(s)
  {
    !s.b.started && (s.b.stopped || s.ctxDone || !s.b.startup.Pending?)
  }

  /** What once holds of the barrier and holds from then on. */
  predicate Persists(s: System, s': System)
    requires Sized(s) && Sized(s')
  {
    && (s.b.stopped ==> s'.b.stopped)
    && (s.b.started ==> s'.b.started)
    && (Doomed(s) ==> Doomed(s'))
  }

  lemma {:induction false} NextPersists(s: System, e: Event)
    requires Sized(s) && IsEvent(e)
    ensures Persists(s, Next(s, e))
  {
  }

  lemma {:induction false} Later(run: seq<Event>, n: nat)
    requires IsRun(run) && n <= |run| && IsRun(run[..n])
    ensures Persists(After(run[..n]), After(run))
    decreases |run|
  {
    if n < |run| {
      var init := run[..|run| - 1];
      assert init[..n] == run[..n];
      Later(init, n);
      NextPersists(After(init), run[|run| - 1]);
    } else {
      assert run[..n] == run;
    }
  }

  /** Once `stop` has returned, no further check passes: later expiries were decided before it. */
  lemma {:induction false} NoCheckPassesAfterStop(run: seq<Event>, n: nat, m: nat, role: nat)
    requires IsRun(run) && role < ROLES && n < m && n < |run| && run[n] == Stop
    ensures !PassesCheck(run, m, role)
  {
    if m < |run| {
      assert run[..n + 1][..n] == run[..n];
      assert After(run[..n + 1]).b.stopped;
      assert run[..m][..n + 1] == run[..n + 1];
      Later(run[..m], n + 1);
    }
  }

  // Exactly when the barrier opens.

  predicate ReadySeen(run: seq<Event>, role: nat) {
    exists i :: 0 <= i < |run| && run[i] == Ready(role, false)
  }

  predicate Disturbs(e: Event) {
    e.Finish? || e.Stop? || e.Cancel? || e.FireStartup? || (e.Ready? && e.cancelled)
  }

  /** No finish, stop, cancellation or startup deadline so far. */
  predicate Quiet(run: seq<Event>) {
    forall i :: 0 <= i < |run| ==> !Disturbs(run[i])
  }

  lemma {:induction false} ReadySeenStep(run: seq<Event>, e: Event, role: nat)
    ensures ReadySeen(run + [e], role) <==> ReadySeen(run, role) || e == Ready(role, false)
  {
    if ReadySeen(run, role) {
      var i :| 0 <= i < |run| && run[i] == Ready(role, false);
      assert (run + [e])[i] == Ready(role, false);
    }
    assert (run + [e])[|run|] == e;
  }

  /** The state after an undisturbed run, by which roles have become ready in it. */
  predicate QuietShape(s: System, first: bool, second: bool)
    requires Sized(s)
  {
    && !s.b.stopped && !s.ctxDone && s.owed == 0
    && s.b.ready == [first, second] && s.b.started == (first && second)
    && (!s.b.started ==> s.b.startup.Pending?)
  }

  lemma {:induction false} QuietStep(s: System, e: Event, first: bool, second: bool)
    requires Inv(s) && IsEvent(e) && !Disturbs(e) && QuietShape(s, first, second)
    ensures QuietShape(Next(s, e), first || e == Ready(0, false), second || e == Ready(1, false))
  {
  }

  lemma {:induction false} QuietState(run: seq<Event>)
    requires IsRun(run) && Quiet(run)
    ensures QuietShape(After(run), ReadySeen(run, 0), ReadySeen(run, 1))
  {
    if run != [] {
      var init, last := run[..|run| - 1], run[|run| - 1];
      assert run == init + [last];
      QuietState(init);
      RunKeepsInv(init);
      QuietStep(After(init), last, ReadySeen(init, 0), ReadySeen(init, 1));
      ReadySeenStep(init, last, 0);
      ReadySeenStep(init, last, 1);
    }
  }

  ghost predicate BothReadyInTime(run: seq<Event>) {
    exists n :: 0 <= n <= |run| && Quiet(run[..n]) && ReadySeen(run[..n], 0) && ReadySeen(run[..n], 1)
  }

  /** Both targets are released exactly when both became ready before anything disturbed the start. */
  lemma {:induction false} ReleasedExactlyWhenReadyInTime(run: seq<Event>)
    requires IsRun(run)
    ensures After(run).b.releases == 1 <==> BothReadyInTime(run)
  {
    RunKeepsInv(run);
    if BothReadyInTime(run) {
      var n :| 0 <= n <= |run| && Quiet(run[..n]) && ReadySeen(run[..n], 0) && ReadySeen(run[..n], 1);
      QuietState(run[..n]);
      Later(run, n);
    } else {
      NotReadyInTimeNotStarted(run, |run|);
      assert run[..|run|] == run;
    }
  }

  lemma {:induction false} NotReadyInTimeNotStarted(run: seq<Event>, n: nat)
    requires IsRun(run) && !BothReadyInTime(run) && n <= |run| && IsRun(run[..n])
    ensures !After(run[..n]).b.started
    decreases n
  {
    if Quiet(run[..n]) {
      QuietState(run[..n]);
    } else {
      var k := FirstDisturbance(run[..n]);
      assert run[..n][..k] == run[..k] && run[..n][..k + 1] == run[..k + 1] && run[..k + 1][..k] == run[..k];
      NotReadyInTimeNotStarted(run, k);
      QuietState(run[..k]);
      RunKeepsInv(run[..k]);
      DoomedByDisturbance(After(run[..k]), run[k]);
      Later(run[..n], k + 1);
    }
  }

  lemma {:induction false} FirstDisturbance(run: seq<Event>) returns (k: nat)
    requires !Quiet(run)
    ensures k < |run| && Quiet(run[..k]) && Disturbs(run[k])
  {
    k := 0;
    while !Disturbs(run[k])
      invariant k < |run| && Quiet(run[..k])
      invariant exists i :: k <= i < |run| && Disturbs(run[i])
      decreases |run| - k
    {
      k := k + 1;
    }
  }

  lemma {:induction false} DoomedByDisturbance(s: System, e: Event)
    requires Sized(s) && IsEvent(e) && Disturbs(e)
    requires !s.b.started && !s.b.stopped && !s.ctxDone && s.b.startup.Pending?
    ensures Doomed(Next(s, e))
  {
  }

  // The startup abort after an early finish.

  /** An abort is owed, or has run. */
  predicate AbortSettled(s: System) {
    s.owed > 0 || s.aborts == 1
  }

  lemma {:induction false} SettledStaysSettled(s: System, e: Event)
    requires Inv(s) && IsEvent(e)
    ensures AbortSettled(s) ==> AbortSettled(Next(s, e))
    ensures s.aborts == 1 ==> Next(s, e).aborts == 1
    ensures e.CallAbort? && AbortSettled(s) ==> Next(s, e).aborts == 1
  {
  }

  lemma {:induction false} AbortIsNotLost(run: seq<Event>, n: nat)
    requires IsRun(run) && n <= |run| && IsRun(run[..n]) && AbortSettled(After(run[..n]))
    ensures AbortSettled(After(run))
    ensures CallAbort in run[n..] ==> After(run).aborts == 1
    decreases |run|
  {
    if n < |run| {
      var init, last := run[..|run| - 1], run[|run| - 1];
      assert init[..n] == run[..n] && run[n..] == init[n..] + [last];
      RunKeepsInv(init);
      AbortIsNotLost(init, n);
      SettledStaysSettled(After(init), last);
    } else {
      assert run[..n] == run;
    }
  }

  /**
   A role that finishes before the release: whatever happens afterwards, nothing is released and the startup abort is
   owed until it has run, which it does exactly once as soon as it is called.
   */
  lemma {:induction false} EarlyFinishAborts(run: seq<Event>, n: nat, role: nat)
    requires IsRun(run) && n < |run| && run[n] == Finish(role) && IsRun(run[..n])
    requires var b := After(run[..n]).b; !b.started && !b.stopped
    ensures After(run).b.releases == 0 && AbortSettled(After(run))
    ensures CallAbort in run[n + 1..] ==> After(run).aborts == 1
  {
    assert run[..n + 1][..n] == run[..n] && IsEvent(run[n]);
    assert After(run[..n + 1]) == Next(After(run[..n]), Finish(role));
    RunKeepsInv(run);
    Later(run, n + 1);
    AbortIsNotLost(run, n + 1);
  }
}
