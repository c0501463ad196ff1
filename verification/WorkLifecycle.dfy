/**
 The request lifecycle of internal/api/lifecycle.go and the shutdown of
 cmd/server/shutdown.go.  Each lock-held section is one atomic step.  A request
 is named by a number, and calling its cancel function is recorded by that name.
 */
module WorkLifecycle {
  import opened Common

  type Id = nat
  type Channel = nat

  /** What the mutex protects; `made` and `closes` count the channels made and the close operations. */
  datatype Life = Life(
    draining: bool, requests: map<Id, bool>, done: Option<Channel>, finished: bool, made: nat, closes: nat)

  function New(): Life {
    Life(false, map[], None, false, 0, 0)
  }

  function MakeDone(l: Life): Life {
    if l.done.None? then l.(done := Some(l.made), made := l.made + 1) else l
  }

  function Signal(l: Life): Life {
    if l.draining && l.requests == map[] && !l.finished then MakeDone(l).(closes := l.closes + 1, finished := true)
      else l
  }

  function NotRunning(l: Life): set<Id> {
    set id | id in l.requests && !l.requests[id]
  }

  function BeginStep(l: Life, id: Id): Life {
    if l.draining then l else l.(requests := l.requests[id := false])
  }

  /** `request` is the work request carried by the context, if any. */
  predicate CanStart(l: Life, request: Option<Id>, ctxErr: bool) {
    !l.draining && !ctxErr && (request.Some? ==> request.value in l.requests)
  }

  function StartStep(l: Life, request: Option<Id>, ctxErr: bool): Life {
    if CanStart(l, request, ctxErr) && request.Some? then l.(requests := l.requests[request.value := true]) else l
  }

  function FinishStep(l: Life, id: Id): Life {
    Signal(l.(requests := l.requests - {id}))
  }

  function DrainStep(l: Life): Life {
    Signal(l.(draining := true))
  }

  class Lifecycle {
    var draining: bool
    var requests: map<Id, bool>
    var done: Option<Channel>
    var finished: bool
    var made: nat
    var closes: nat

    function State(): Life
      reads this
    {
      Life(draining, requests, done, finished, made, closes)
    }

    constructor ()
      ensures State() == New()
    {
      draining, requests, done, finished, made, closes := false, map[], None, false, 0, 0;
    }

    method Begin(id: Id) returns (ok: bool)
      modifies this
      ensures ok == !old(draining) && State() == BeginStep(old(State()), id)
    {
      if draining { return false; }
      requests := requests[id := false];
      return true;
    }

    method Start(request: Option<Id>, ctxErr: bool) returns (ok: bool)
      modifies this
      ensures ok == CanStart(old(State()), request, ctxErr) && State() == StartStep(old(State()), request, ctxErr)
    {
      if draining || ctxErr { return false; }
      if request.Some? {
        if request.value !in requests { return false; }
        requests := requests[request.value := true];
      }
      return true;
    }

    method SignalFinished()
      modifies this
      ensures State() == Signal(old(State()))
    {
      if draining && |requests| == 0 && !finished {
        if done.None? {
          done := Some(made);
          made := made + 1;
        }
        closes := closes + 1;
        finished := true;
      }
    }

    method Finish(id: Id)
      modifies this
      ensures State() == FinishStep(old(State()), id)
    {
      requests := requests - {id};
      SignalFinished();
    }

    /** Returns the requests whose cancel function has been called. */
    method BeginDrain() returns (cancelled: set<Id>)
      modifies this
      ensures State() == DrainStep(old(State())) && cancelled == NotRunning(old(State()))
    {
      draining := true;
      cancelled := {};
      var todo := requests.Keys;
      while todo != {}
        invariant todo <= requests.Keys
        invariant cancelled == set id | id in requests && id !in todo && !requests[id]
        invariant State() == old(State()).(draining := true)
        decreases todo
      {
        var id :| id in todo;
        if !requests[id] { cancelled := cancelled + {id}; }
        todo := todo - {id};
      }
      SignalFinished();
    }

    method CancelWork() returns (cancelled: set<Id>)
      ensures cancelled == requests.Keys
    {
      cancelled := {};
      var todo := requests.Keys;
      while todo != {}
        invariant todo <= requests.Keys && cancelled == requests.Keys - todo
        decreases todo
      {
        var id :| id in todo;
        cancelled := cancelled + {id};
        todo := todo - {id};
      }
    }

    /** The locked part of `WaitForWork`. */
    method DoneChannel() returns (channel: Channel)
      modifies this
      ensures State() == MakeDone(old(State())) && done == Some(channel)
    {
      if done.None? {
        done := Some(made);
        made := made + 1;
      }
      channel := done.value;
    }
  }

  // The whole system.

  datatype Wait = Waiting(channel: Channel) | ReturnedNil | ReturnedErr

  datatype System = System(
    l: Life,
    admitted: set<Id>,         // requests that `begin` accepted
    cancelled: set<Id>,        // contexts that have been cancelled
    cleaned: set<Id>,          // handlers that have run their deferred finish
    starts: nat,               // calls of `start` that succeeded
    waits: map<nat, Wait>)     // calls of WaitForWork

  datatype Event =
    | Begin(id: Id)
    | Start(request: Option<Id>, parentErr: bool)
    | Abandon(id: Id)          // the parent context ends, or finish calls cancel before taking the lock
    | Finish(id: Id)
    | BeginDrain
    | CancelWork
    | Wait(call: nat)          // WaitForWork fetches the channel
    | WaitReturns(call: nat)   // a receive from its closed channel
    | WaitGivesUp(call: nat)   // its context ends

  predicate Closed(l: Life, channel: Channel) {
    l.finished && l.done == Some(channel)
  }

  /** One step; an event that cannot happen in `s` changes nothing. */
  function Next(s: System, e: Event): System {
    match e
    case Begin(id) =>
      if id in s.admitted || s.l.draining then s
      else s.(l := BeginStep(s.l, id), admitted := s.admitted + {id})
    case Start(request, parentErr) =>
      var err := parentErr || (request.Some? && request.value in s.cancelled);
      s.(l := StartStep(s.l, request, err), starts := if CanStart(s.l, request, err) then s.starts + 1 else s.starts)
    case Abandon(id) => if id in s.admitted then s.(cancelled := s.cancelled + {id}) else s
    case Finish(id) =>
      if id in s.l.requests then s.(l := FinishStep(s.l, id), cleaned := s.cleaned + {id}) else s
    case BeginDrain => s.(l := DrainStep(s.l), cancelled := s.cancelled + NotRunning(s.l))
    case CancelWork => s.(cancelled := s.cancelled + s.l.requests.Keys)
    case Wait(call) =>
      if call in s.waits then s
      else var l := MakeDone(s.l); s.(l := l, waits := s.waits[call := Waiting(l.done.value)])
    case WaitReturns(call) =>
      if call in s.waits && s.waits[call].Waiting? && Closed(s.l, s.waits[call].channel)
      then s.(waits := s.waits[call := ReturnedNil]) else s
    case WaitGivesUp(call) =>
      if call in s.waits && s.waits[call].Waiting? then s.(waits := s.waits[call := ReturnedErr]) else s
  }

  function After(run: seq<Event>): System {
    if run == [] then System(New(), {}, {}, {}, 0, map[]) else Next(After(run[..|run| - 1]), run[|run| - 1])
  }

  predicate Drained(s: System) {
    s.l.draining && s.l.requests == map[]
  }

  /** Holds between any two steps. */
  predicate Inv(s: System) {
    && (s.l.finished <==> Drained(s))
    && s.l.closes == (if s.l.finished then 1 else 0)
    && s.l.made <= 1 && s.l.done == (if s.l.made == 0 then None else Some(0))
    && (s.l.finished ==> s.l.done.Some?)
    && s.cleaned <= s.admitted && s.l.requests.Keys == s.admitted - s.cleaned
    && forall call :: call in s.waits ==>
         && (s.waits[call].Waiting? ==> s.l.done == Some(s.waits[call].channel))
         && (s.waits[call].ReturnedNil? ==> Drained(s))
  }

  lemma {:induction false} NextKeepsInv(s: System, e: Event)
    requires Inv(s)
    ensures Inv(Next(s, e))
  {
    if e.Finish? { assert (s.l.requests - {e.id}).Keys == s.l.requests.Keys - {e.id}; }
  }

  lemma {:induction false} RunKeepsInv(run: seq<Event>)
    ensures Inv(After(run))
  {
    if run != [] {
      RunKeepsInv(run[..|run| - 1]);
      NextKeepsInv(After(run[..|run| - 1]), run[|run| - 1]);
    }
  }

  /** What one step, and so any continuation of a run, keeps. */
  predicate Persists(s: System, s': System) {
    && (s.l.draining ==> s'.l.draining && s'.admitted == s.admitted && s'.starts == s.starts)
    && (s.l.draining ==>
       forall id :: id in s'.l.requests ==> id in s.l.requests && s'.l.requests[id] == s.l.requests[id])
    && (s.l.done.Some? ==> s'.l.done == s.l.done)
    && (s.l.finished ==> s'.l.finished)
    && s.cleaned <= s'.cleaned && s.cancelled <= s'.cancelled && s.l.closes <= s'.l.closes
  }

  lemma {:induction false} NextPersists(s: System, e: Event)
    requires Inv(s)
    ensures Persists(s, Next(s, e))
  {
  }

  lemma {:induction false} Later(run: seq<Event>, n: nat)
    requires n <= |run|
    ensures Persists(After(run[..n]), After(run))
    decreases |run|
  {
    if n < |run| {
      var init := run[..|run| - 1];
      assert init[..n] == run[..n];
      Later(init, n);
      RunKeepsInv(init);
      NextPersists(After(init), run[|run| - 1]);
    } else {
      assert run[..n] == run;
    }
  }

  /** Step m begins, starts or finishes the request, in a state that lets it. */
  ghost predicate Begins(run: seq<Event>, m: nat, id: Id) {
    m < |run| && run[m] == Event.Begin(id) && forall k :: 0 <= k < m ==> run[k] != BeginDrain
  }

  ghost predicate Starts(run: seq<Event>, m: nat, id: Id) {
    && m < |run| && run[m] == Event.Start(Some(id), false) && (forall k :: 0 <= k < m ==> run[k] != BeginDrain)
    && var s := After(run[..m]); id in s.admitted && id !in s.cleaned && id !in s.cancelled
  }

  ghost predicate Finishes(run: seq<Event>, m: nat, id: Id) {
    m < |run| && run[m] == Event.Finish(id) && id in After(run[..m]).admitted
  }

  ghost predicate Begun(run: seq<Event>, id: Id) {
    exists m :: Begins(run, m, id)
  }

  ghost predicate Started(run: seq<Event>, id: Id) {
    exists m :: Starts(run, m, id)
  }

  ghost predicate Finished(run: seq<Event>, id: Id) {
    exists m :: Finishes(run, m, id)
  }

  /** No drain began in the first n steps. */
  lemma {:induction false} NotDraining(run: seq<Event>, n: nat)
    requires n <= |run|
    ensures !After(run[..n]).l.draining <==> forall k :: 0 <= k < n ==> run[k] != BeginDrain
    decreases n
  {
    if n > 0 {
      assert run[..n][..n - 1] == run[..n - 1];
      NotDraining(run, n - 1);
    }
  }

  lemma {:induction false} Earlier(run: seq<Event>, m: nat, id: Id)
    requires m + 1 < |run|
    ensures Begins(run[..|run| - 1], m, id) <==> Begins(run, m, id)
    ensures Starts(run[..|run| - 1], m, id) <==> Starts(run, m, id)
    ensures Finishes(run[..|run| - 1], m, id) <==> Finishes(run, m, id)
  {
    assert run[..|run| - 1][..m] == run[..m];
  }

  lemma {:induction false} OneBeginMore(run: seq<Event>, id: Id)
    requires run != []
    ensures var init := run[..|run| - 1];
            Begun(run, id) <==> Begun(init, id) || (run[|run| - 1] == Event.Begin(id) && !After(init).l.draining)
  {
    var n := |run| - 1;
    NotDraining(run, n);
    if m: nat :| Begins(run[..n], m, id) { Earlier(run, m, id); }
    if m: nat :| Begins(run, m, id) && m < n { Earlier(run, m, id); }
    assert run[n] == Event.Begin(id) && !After(run[..n]).l.draining ==> Begins(run, n, id);
  }

  lemma {:induction false} OneFinishMore(run: seq<Event>, id: Id)
    requires run != []
    ensures var init := run[..|run| - 1];
            Finished(run, id) <==>
              Finished(init, id) || (run[|run| - 1] == Event.Finish(id) && id in After(init).admitted)
  {
    var n := |run| - 1;
    if m: nat :| Finishes(run[..n], m, id) { Earlier(run, m, id); }
    if m: nat :| Finishes(run, m, id) && m < n { Earlier(run, m, id); }
    assert run[n] == Event.Finish(id) && id in After(run[..n]).admitted ==> Finishes(run, n, id);
  }

  predicate LetsStart(s: System, e: Event, id: Id) {
    && e == Event.Start(Some(id), false) && !s.l.draining
    && id in s.admitted && id !in s.cleaned && id !in s.cancelled
  }

  lemma {:induction false} OneStartMore(run: seq<Event>, id: Id)
    requires run != []
    ensures Started(run, id) <==>
            Started(run[..|run| - 1], id) || LetsStart(After(run[..|run| - 1]), run[|run| - 1], id)
  {
    var n := |run| - 1;
    NotDraining(run, n);
    if m: nat :| Starts(run[..n], m, id) { Earlier(run, m, id); }
    if m: nat :| Starts(run, m, id) && m < n { Earlier(run, m, id); }
    assert LetsStart(After(run[..n]), run[n], id) ==> Starts(run, n, id);
  }

  /** A request is admitted exactly by a begin before any drain, and cleaned exactly by a finish after that. */
  lemma {:induction false} AdmittedExactly(run: seq<Event>, id: Id)
    ensures id in After(run).admitted <==> Begun(run, id)
    ensures id in After(run).cleaned <==> Finished(run, id)
  {
    if run != [] {
      AdmittedExactly(run[..|run| - 1], id);
      OneBeginMore(run, id);
      OneFinishMore(run, id);
      RunKeepsInv(run[..|run| - 1]);
    }
  }

  predicate Tracks(s: System, id: Id, started: bool) {
    && (id in s.l.requests <==> id in s.admitted && id !in s.cleaned)
    && (id in s.l.requests ==> s.l.requests[id] == started)
    && (started ==> id in s.admitted)
  }

  lemma {:induction false} TracksStep(s: System, e: Event, id: Id, started: bool)
    requires Inv(s) && Tracks(s, id, started)
    ensures Tracks(Next(s, e), id, started || LetsStart(s, e, id))
  {
    NextKeepsInv(s, e);
  }

  /** A registered request is running exactly when it has been started, uncancelled, before any drain. */
  lemma {:induction false} RunningExactlyIfStarted(run: seq<Event>, id: Id)
    ensures Tracks(After(run), id, Started(run, id))
  {
    if run != [] {
      RunningExactlyIfStarted(run[..|run| - 1], id);
      OneStartMore(run, id);
      RunKeepsInv(run[..|run| - 1]);
      TracksStep(After(run[..|run| - 1]), run[|run| - 1], id, Started(run[..|run| - 1], id));
    }
  }

  /**
   The done channel is made at most once, never replaced, and closed exactly once when the drained state is reached.
   */
  lemma {:induction false} DoneClosesOnce(run: seq<Event>, n: nat)
    requires n <= |run|
    ensures var s, s' := After(run[..n]), After(run);
            && s'.l.made <= 1 && s'.l.closes <= 1
            && (s.l.done.Some? ==> s'.l.done == s.l.done)
            && (s'.l.finished <==> s'.l.draining && s'.l.requests == map[])
            && (s'.l.closes == 1 <==> s'.l.finished)
  {
    RunKeepsInv(run);
    Later(run, n);
  }

  /** After a drain nothing is admitted and nothing starts, whatever happens next. */
  lemma {:induction false} NothingEntersAfterDrain(run: seq<Event>, n: nat)
    requires n < |run| && run[n] == BeginDrain
    ensures var s, s' := After(run[..n]), After(run);
            && s'.admitted == s.admitted && s'.starts == s.starts
            && forall id :: id in s'.l.requests ==> id in s.l.requests && s'.l.requests[id] == s.l.requests[id]
  {
    assert run[..n + 1][..n] == run[..n];
    Later(run, n + 1);
  }

  /** What a drain decides about one request whose context is live: only an idle registered one is cancelled. */
  predicate Decided(s: System, id: Id, cancels: bool) {
    && s.l.draining
    && (id in s.cancelled <==> cancels)
    && (!cancels ==> id in s.l.requests ==> s.l.requests[id])
  }

  predicate Spares(e: Event, id: Id) {
    e != CancelWork && e != Abandon(id)
  }

  lemma {:induction false} DecisionStands(s: System, e: Event, id: Id, cancels: bool)
    requires Decided(s, id, cancels) && Spares(e, id)
    ensures Decided(Next(s, e), id, cancels)
  {
  }

  lemma {:induction false} DecisionStandsLater(run: seq<Event>, n: nat, id: Id, cancels: bool)
    requires n <= |run| && Decided(After(run[..n]), id, cancels)
    requires forall k :: n <= k < |run| ==> Spares(run[k], id)
    ensures Decided(After(run), id, cancels)
    decreases |run|
  {
    if n < |run| {
      var init := run[..|run| - 1];
      assert init[..n] == run[..n];
      DecisionStandsLater(init, n, id, cancels);
      DecisionStands(After(init), run[|run| - 1], id, cancels);
    } else {
      assert run[..n] == run;
    }
  }

  /**
   Draining cancels exactly the registered requests that are not running. A running one keeps its context for as long
   as neither CancelWork nor its own client ends it, and one that was cancelled stays so.
   */
  lemma {:induction false} DrainCancelsTheIdle(run: seq<Event>, n: nat, id: Id)
    requires n < |run| && run[n] == BeginDrain && id !in After(run[..n]).cancelled
    requires forall k :: n < k < |run| ==> Spares(run[k], id)
    ensures id in After(run).cancelled <==> id in NotRunning(After(run[..n]).l)
  {
    assert run[..n + 1][..n] == run[..n];
    DecisionStandsLater(run, n + 1, id, id in NotRunning(After(run[..n]).l));
  }

  /** A request that runs with a live context keeps it through any continuation, drains included. */
  lemma {:induction false} RunningIsSpared(run: seq<Event>, n: nat, id: Id)
    requires n <= |run| && id !in After(run[..n]).cancelled
    requires id in After(run[..n]).l.requests && After(run[..n]).l.requests[id]
    requires forall k :: n <= k < |run| ==> Spares(run[k], id)
    ensures id !in After(run).cancelled
    ensures id in After(run).l.requests ==> After(run).l.requests[id]
    decreases |run|
  {
    if n < |run| {
      var init := run[..|run| - 1];
      assert init[..n] == run[..n];
      RunningIsSpared(init, n, id);
      RunKeepsInv(run[..n]);
      RunKeepsInv(init);
      AdmittedLater(init, n);
    } else {
      assert run[..n] == run;
    }
  }

  lemma {:induction false} AdmittedLater(run: seq<Event>, n: nat)
    requires n <= |run|
    ensures After(run[..n]).admitted <= After(run).admitted
    decreases |run|
  {
    if n < |run| {
      assert run[..|run| - 1][..n] == run[..n];
      AdmittedLater(run[..|run| - 1], n);
    } else {
      assert run[..n] == run;
    }
  }

  /** When a wait returns nil, every handler ever admitted, then or later, has run its cleanup. */
  lemma {:induction false} NilMeansAllCleaned(run: seq<Event>, call: nat, n: nat)
    requires n <= |run| && call in After(run[..n]).waits && After(run[..n]).waits[call] == ReturnedNil
    ensures var s, s' := After(run[..n]), After(run);
            s.l.draining && s.admitted <= s.cleaned && s'.admitted == s.admitted && s'.admitted <= s'.cleaned
  {
    RunKeepsInv(run[..n]);
    Later(run, n);
    var s := After(run[..n]);
    assert s.l.requests.Keys == {} == s.admitted - s.cleaned;
    assert forall id :: id in s.admitted ==> id in s.cleaned || id in s.admitted - s.cleaned;
  }

  /** No wake-up is lost: once draining and all cleaned, a waiting call can return. */
  lemma {:induction false} WaitCanReturn(run: seq<Event>, call: nat)
    requires call in After(run).waits && After(run).waits[call].Waiting?
    requires After(run).l.draining && After(run).admitted <= After(run).cleaned
    ensures After(run + [WaitReturns(call)]).waits[call] == ReturnedNil
  {
    RunKeepsInv(run);
    assert After(run).l.requests.Keys == {};
    assert (run + [WaitReturns(call)])[..|run|] == run;
  }
}
