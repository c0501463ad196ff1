/**
 The per-principal request rate of internal/api/server.go: fixed one-minute
 windows in a map that is cleaned at most once a minute.
 */
module RateWindow {
  import opened Common

  const MINUTE := 60_000_000_000   // nanoseconds

  datatype Window = Window(start: int, count: nat)

  type Rates = map<string, Window>

  predicate Over(w: Window, now: int) {
    now - w.start >= MINUTE
  }

  /** What one request does to the principal's window, None when it is refused. */
  function Take(rates: Rates, principal: string, now: int, max: int): Option<Window> {
    if principal !in rates || Over(rates[principal], now) then Some(Window(now, 1))
    else if rates[principal].count >= max then None
    else Some(rates[principal].(count := rates[principal].count + 1))
  }

  function Cleaned(rates: Rates, now: int): Rates {
    map p | p in rates && !Over(rates[p], now) :: rates[p]
  }

  datatype Limiter = Limiter(rates: Rates, lastCleanup: Option<int>)

  function AllowStep(l: Limiter, principal: string, now: int, max: int): (bool, Limiter) {
    var clean := l.lastCleanup.None? || now - l.lastCleanup.value >= MINUTE;
    var rates := if clean then Cleaned(l.rates, now) else l.rates;
    var w := Take(rates, principal, now, max);
    (w.Some?,
      Limiter(if w.Some? then rates[principal := w.value] else rates, if clean then Some(now) else l.lastCleanup))
  }

  class RateLimiter {
    var rates: Rates
    var lastCleanup: Option<int>

    constructor ()
      ensures rates == map[] && lastCleanup == None
    {
      rates, lastCleanup := map[], None;
    }

    method Allow(principal: string, now: int, max: int) returns (ok: bool)
      modifies this
      ensures if max <= 0 then ok && rates == old(rates) && lastCleanup == old(lastCleanup)
              else
                (ok, Limiter(rates, lastCleanup)) ==
                AllowStep(Limiter(old(rates), old(lastCleanup)), principal, now, max)
    {
      if max <= 0 { return true; }
      if lastCleanup.None? || now - lastCleanup.value >= MINUTE {
        var todo := rates.Keys;
        while todo != {}
          invariant todo <= rates.Keys <= old(rates).Keys
          invariant forall p :: p in rates ==> rates[p] == old(rates)[p]
          invariant forall p :: p in old(rates) && p !in todo ==> (p in rates <==> !Over(old(rates)[p], now))
          invariant lastCleanup == old(lastCleanup)
          decreases todo
        {
          var key :| key in todo;
          if Over(rates[key], now) { rates := rates - {key}; }
          todo := todo - {key};
        }
        assert rates == Cleaned(old(rates), now);
        lastCleanup := Some(now);
      }
      if principal !in rates || Over(rates[principal], now) {
        rates := rates[principal := Window(now, 1)];
        return true;
      }
      var window := rates[principal];
      if window.count >= max { return false; }
      rates := rates[principal := window.(count := window.count + 1)];
      return true;
    }
  }

  // The reference: a map that is never cleaned.

  datatype Request = Request(principal: string, now: int)

  function PlainStep(rates: Rates, r: Request, max: int): (bool, Rates) {
    var w := Take(rates, r.principal, r.now, max);
    (w.Some?, if w.Some? then rates[r.principal := w.value] else rates)
  }

  ghost predicate Clocked(run: seq<Request>) {
    forall i, j :: 0 <= i <= j < |run| ==> run[i].now <= run[j].now
  }

  function LimiterAfter(run: seq<Request>, max: int): Limiter {
    if run == [] then Limiter(map[], None)
    else
      var last := run[|run| - 1];
      AllowStep(LimiterAfter(run[..|run| - 1], max), last.principal, last.now, max).1
  }

  function PlainAfter(run: seq<Request>, max: int): Rates {
    if run == [] then map[] else PlainStep(PlainAfter(run[..|run| - 1], max), run[|run| - 1], max).1
  }

  function Allowed(run: seq<Request>, i: nat, max: int): bool
    requires i < |run|
  {
    AllowStep(LimiterAfter(run[..i], max), run[i].principal, run[i].now, max).0
  }

  function PlainAllowed(run: seq<Request>, i: nat, max: int): bool
    requires i < |run|
  {
    PlainStep(PlainAfter(run[..i], max), run[i], max).0
  }

  predicate SameWindow(rates: Rates, plain: Rates, p: string, now: int) {
    && (p in rates ==> p in plain && plain[p] == rates[p])
    && (p in plain && !Over(plain[p], now) ==> p in rates)
  }

  /** The cleaned map lacks only windows that are over. */
  ghost predicate Agree(rates: Rates, plain: Rates, now: int) {
    forall p {:trigger SameWindow(rates, plain, p, now)} :: SameWindow(rates, plain, p, now)
  }

  lemma {:induction false} StepAgrees(l: Limiter, plain: Rates, r: Request, max: int)
    requires Agree(l.rates, plain, r.now)
    ensures AllowStep(l, r.principal, r.now, max).0 == PlainStep(plain, r, max).0
    ensures Agree(AllowStep(l, r.principal, r.now, max).1.rates, PlainStep(plain, r, max).1, r.now)
  {
    var l', plain' := AllowStep(l, r.principal, r.now, max).1, PlainStep(plain, r, max).1;
    assert SameWindow(l.rates, plain, r.principal, r.now);
    forall p ensures SameWindow(l'.rates, plain', p, r.now) {
      assert SameWindow(l.rates, plain, p, r.now);
    }
  }

  lemma {:induction false} RunAgrees(run: seq<Request>, now: int, max: int)
    requires Clocked(run) && (run != [] ==> run[|run| - 1].now <= now)
    ensures Agree(LimiterAfter(run, max).rates, PlainAfter(run, max), now)
  {
    if run != [] {
      var init, last := run[..|run| - 1], run[|run| - 1];
      RunAgrees(init, last.now, max);
      StepAgrees(LimiterAfter(init, max), PlainAfter(init, max), last, max);
      var rates, plain := LimiterAfter(run, max).rates, PlainAfter(run, max);
      forall p ensures SameWindow(rates, plain, p, now) {
        assert SameWindow(rates, plain, p, last.now);
      }
    }
  }

  /** Cleaning never changes a decision. */
  lemma {:induction false} CleanupIsUnobservable(run: seq<Request>, i: nat, max: int)
    requires Clocked(run) && i < |run|
    ensures Allowed(run, i, max) == PlainAllowed(run, i, max)
  {
    RunAgrees(run[..i], run[i].now, max);
    StepAgrees(LimiterAfter(run[..i], max), PlainAfter(run[..i], max), run[i], max);
  }

  // How many requests are accepted.

  /** Accepted requests of a principal with from <= now < to, among the first n. */
  function Accepted(run: seq<Request>, n: nat, p: string, from: int, to: int, max: int): nat
    requires n <= |run|
  {
    if n == 0 then 0
    else
      var r := run[n - 1];
      Accepted(run, n - 1, p, from, to, max)
        + (if r.principal == p && from <= r.now < to && PlainAllowed(run, n - 1, max) then 1 else 0)
  }

  /** Nothing has been accepted after the end of the principal's current window. */
  lemma {:induction false} NoneAfterWindow(run: seq<Request>, n: nat, p: string, from: int, to: int, max: int)
    requires Clocked(run) && n <= |run|
    requires var rates := PlainAfter(run[..n], max); p in rates ==> from >= rates[p].start + MINUTE
    ensures Accepted(run, n, p, from, to, max) == 0
    decreases n
  {
    if n > 0 {
      var before := PlainAfter(run[..n - 1], max);
      assert run[..n][..n - 1] == run[..n - 1];
      WindowStarted(run, n - 1, p, max);
      NoneAfterWindow(run, n - 1, p, from, to, max);
    }
  }

  /** A window starts no later than the last request, and holds between one and max acceptances. */
  lemma {:induction false} WindowStarted(run: seq<Request>, n: nat, p: string, max: int)
    requires Clocked(run) && n <= |run|
    ensures var rates := PlainAfter(run[..n], max); p in rates ==> n > 0 && rates[p].start <= run[n - 1].now
    decreases n
  {
    if n > 0 {
      assert run[..n][..n - 1] == run[..n - 1];
      WindowStarted(run, n - 1, p, max);
    }
  }

  /** The window of p after the last request: as it was, opened by it, or counting it. */
  lemma {:induction false} WindowStep(run: seq<Request>, n: nat, p: string, max: nat)
    requires 0 < n <= |run|
    ensures var before, after, r := PlainAfter(run[..n - 1], max), PlainAfter(run[..n], max), run[n - 1];
            var opens := r.principal == p && (p !in before || Over(before[p], r.now));
            var allowed := PlainAllowed(run, n - 1, max);
            && (opens ==> allowed && p in after && after[p] == Window(r.now, 1))
            && (!opens ==> (p in after <==> p in before))
            && (!opens && p in before ==>
                  var counts := r.principal == p && before[p].count < max;
                  (r.principal == p ==> allowed == counts)
                  && after[p] == if counts then before[p].(count := before[p].count + 1) else before[p])
  {
    assert run[..n][..n - 1] == run[..n - 1];
  }

  /** A window's count is the number of requests accepted in its minute, at most max. */
  lemma {:induction false} WindowCountIsExact(run: seq<Request>, n: nat, p: string, max: nat)
    requires Clocked(run) && n <= |run| && max > 0
    ensures var rates := PlainAfter(run[..n], max);
            p in rates ==> var w := rates[p];
              1 <= w.count <= max && Accepted(run, n, p, w.start, w.start + MINUTE, max) == w.count
    decreases n
  {
    if n > 0 {
      var before, r := PlainAfter(run[..n - 1], max), run[n - 1];
      WindowStep(run, n, p, max);
      WindowCountIsExact(run, n - 1, p, max);
      WindowStarted(run, n - 1, p, max);
      var after := PlainAfter(run[..n], max);
      if r.principal == p && (p !in before || Over(before[p], r.now)) {
        NoneAfterWindow(run, n - 1, p, r.now, r.now + MINUTE, max);
      } else if p in before {
        assert after[p].start == before[p].start <= r.now;
      }
    }
  }

  /** When the principal's current minute began: with the first request, or the first one a minute or more later. */
  function MinuteStart(run: seq<Request>, n: nat, p: string): Option<int>
    requires n <= |run|
  {
    if n == 0 then None
    else
      var start, r := MinuteStart(run, n - 1, p), run[n - 1];
      if r.principal == p && (start.None? || r.now >= start.value + MINUTE) then Some(r.now) else start
  }

  lemma {:induction false} WindowStartsMinute(run: seq<Request>, n: nat, p: string, max: nat)
    requires n <= |run| && max > 0
    ensures var rates := PlainAfter(run[..n], max);
            MinuteStart(run, n, p) == if p in rates then Some(rates[p].start) else None
    decreases n
  {
    if n > 0 {
      WindowStartsMinute(run, n - 1, p, max);
      WindowStep(run, n, p, max);
    }
  }

  /** A request is refused exactly when max have been accepted in the minute it falls into. */
  lemma {:induction false} RefusedExactly(run: seq<Request>, i: nat, max: nat)
    requires Clocked(run) && i < |run| && max > 0
    ensures var p, now := run[i].principal, run[i].now; var start := MinuteStart(run, i, p);
            !Allowed(run, i, max) <==>
              start.Some? && now < start.value + MINUTE
              && Accepted(run, i, p, start.value, start.value + MINUTE, max) == max
  {
    CleanupIsUnobservable(run, i, max);
    WindowStartsMinute(run, i, run[i].principal, max);
    WindowCountIsExact(run, i, run[i].principal, max);
  }

  /** How many acceptances of an interval of one minute a state allows for, given its current window. */
  ghost predicate Bounded(accepted: nat, rates: Rates, p: string, from: int, max: nat) {
    if p !in rates then accepted == 0
    else
      var w := rates[p];
      if w.start < from then accepted < w.count
      else if w.start < from + MINUTE then accepted < max + w.count
      else accepted < 2 * max
  }

  lemma {:induction false} IntervalBounded(run: seq<Request>, n: nat, p: string, from: int, max: nat)
    requires Clocked(run) && n <= |run| && max > 0
    ensures var accepted := Accepted(run, n, p, from, from + MINUTE, max);
            Bounded(accepted, PlainAfter(run[..n], max), p, from, max)
              && (n > 0 && run[n - 1].now < from ==> accepted == 0)
    decreases n
  {
    if n > 0 {
      assert run[..n][..n - 1] == run[..n - 1];
      IntervalBounded(run, n - 1, p, from, max);
      WindowCountIsExact(run, n - 1, p, max);
      WindowStarted(run, n - 1, p, max);
    }
  }

  /**
   Main result: a half-open interval of one minute never sees 2 * max accepted requests of a principal. One less than
   that is possible (NearlyTwiceMaxIsReached), because a window opens with its first request.
   */
  lemma {:induction false} FewerThanTwiceMaxPerMinute(run: seq<Request>, p: string, from: int, max: nat)
    requires Clocked(run) && max > 0
    ensures Accepted(run, |run|, p, from, from + MINUTE, max) < 2 * max
  {
    IntervalBounded(run, |run|, p, from, max);
    WindowCountIsExact(run, |run|, p, max);
    assert run[..|run|] == run;
  }

  /** One request, max - 1 more just before its window ends, and max more when it has ended. */
  function Crowd(p: string, max: nat): (run: seq<Request>)
    requires max > 0
    ensures |run| == 2 * max
  {
    seq(2 * max, i => Request(p, if i == 0 then 0 else if i < max then MINUTE - 1 else MINUTE))
  }

  function CrowdRates(p: string, max: nat, n: nat): Rates {
    if n == 0 then map[] else if n <= max then map[p := Window(0, n)] else map[p := Window(MINUTE, n - max)]
  }

  lemma {:induction false} CrowdStep(p: string, max: nat, n: nat)
    requires max > 0 && n < 2 * max
    ensures PlainStep(CrowdRates(p, max, n), Crowd(p, max)[n], max) == (true, CrowdRates(p, max, n + 1))
  {
    var w := if n < max then Window(0, n + 1) else Window(MINUTE, n + 1 - max);
    assert CrowdRates(p, max, n)[p := w] == map[p := w];
    assert Take(CrowdRates(p, max, n), p, Crowd(p, max)[n].now, max) == Some(w);
  }

  lemma {:induction false} CrowdIsAccepted(p: string, max: nat, n: nat)
    requires max > 0 && n <= 2 * max
    ensures PlainAfter(Crowd(p, max)[..n], max) == CrowdRates(p, max, n)
    ensures Accepted(Crowd(p, max), n, p, 1, 1 + MINUTE, max) == if n == 0 then 0 else n - 1
  {
    if n > 0 {
      CrowdIsAccepted(p, max, n - 1);
      CrowdStep(p, max, n - 1);
      assert Crowd(p, max)[..n][..n - 1] == Crowd(p, max)[..n - 1];
      assert PlainAllowed(Crowd(p, max), n - 1, max);
    }
  }

  lemma {:induction false} NearlyTwiceMaxIsReached(p: string, max: nat)
    requires max > 0
    ensures Clocked(Crowd(p, max)) && Accepted(Crowd(p, max), 2 * max, p, 1, 1 + MINUTE, max) == 2 * max - 1
  {
    CrowdIsAccepted(p, max, 2 * max);
  }
}
