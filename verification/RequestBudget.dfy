/**
 The shared byte budget of internal/api/request_budget.go. Every lock-held section is one step of one request; a run
 is any interleaving of the steps of any number of requests.
 */
module RequestBudget {
  import opened Common

  /** The total in use by all requests, and what one request holds of it. */
  datatype Account = Account(used: int, held: int)

  function Resized(a: Account, limit: int, n: int): Option<Account> {
    if n < 0 || n - a.held > limit - a.used then None else Some(Account(a.used + (n - a.held), n))
  }

  function Reserved(a: Account, limit: int, maximum: int): Option<Account> {
    if maximum < 0 || maximum > limit - a.used then None else Some(Account(a.used + maximum, a.held + maximum))
  }

  function Finished(a: Account, maximum: int, actual: int): Account {
    Account(a.used - (maximum - actual), a.held - (maximum - actual))
  }

  class Budget {
    const limit: int
    var used: int

    constructor (limit: int)
      ensures this.limit == limit && used == 0
    {
      this.limit, used := limit, 0;
    }
  }

  class Reservation {
    const budget: Budget
    var held: int

    constructor (budget: Budget)
      ensures this.budget == budget && held == 0
    {
      this.budget, held := budget, 0;
    }

    function Now(): Account
      reads this, budget
    {
      Account(budget.used, held)
    }

    /** Asks for n bytes in all. A refusal changes nothing. */
    method Resize(n: int) returns (ok: bool)
      modifies this, budget
      ensures ok == Resized(old(Now()), budget.limit, n).Some?
      ensures Now() == if ok then Resized(old(Now()), budget.limit, n).value else old(Now())
    {
      var delta := n - held;
      if n < 0 || delta > budget.limit - budget.used { return false; }
      budget.used := budget.used + delta;
      held := n;
      return true;
    }

    /** Asks for maximum bytes more, before a download whose size is not known yet. */
    method Reserve(maximum: int) returns (ok: bool)
      modifies this, budget
      ensures ok == Reserved(old(Now()), budget.limit, maximum).Some?
      ensures Now() == if ok then Reserved(old(Now()), budget.limit, maximum).value else old(Now())
    {
      if maximum < 0 || maximum > budget.limit - budget.used { return false; }
      budget.used := budget.used + maximum;
      held := held + maximum;
      return true;
    }

    /** Gives back what the download did not need. */
    method Finish(maximum: int, actual: int)
      requires 0 <= actual <= maximum
      modifies this, budget
      ensures Now() == Finished(old(Now()), maximum, actual)
    {
      budget.used := budget.used - (maximum - actual);
      held := held - (maximum - actual);
    }
  }

  // All requests at once.

  datatype Action =
    | Resize(n: int)
    | Reserve(maximum: int)
    | Finish(actual: int)

  datatype Step = Step(request: nat, action: Action)

  /** pending[r] is the maximum of the reservation that request r has not finished yet. */
  datatype State = State(used: int, held: seq<int>, pending: seq<Option<int>>)

  ghost predicate Shaped(s: State) {
    |s.held| == |s.pending|
  }

  function Start(requests: nat): (s: State)
    ensures Shaped(s)
  {
    State(0, seq(requests, i => 0), seq(requests, i => None))
  }

  /** A request finishes what it reserved, with no more than it reserved, before it asks for anything else. */
  ghost predicate Orderly(s: State, step: Step) {
    step.request < |s.held| == |s.pending| &&
    match step.action
    case Finish(actual) => s.pending[step.request].Some? && 0 <= actual <= s.pending[step.request].value
    case _ => s.pending[step.request].None?
  }

  function Put(s: State, r: nat, a: Account, pending: Option<int>): State
    requires r < |s.held| == |s.pending|
  {
    State(a.used, s.held[r := a.held], s.pending[r := pending])
  }

  function Granted(s: State, limit: int, step: Step): bool
    requires step.request < |s.held|
  {
    var a := Account(s.used, s.held[step.request]);
    match step.action
    case Resize(n) => Resized(a, limit, n).Some?
    case Reserve(maximum) => Reserved(a, limit, maximum).Some?
    case Finish(_) => true
  }

  function Next(s: State, limit: int, step: Step): (s': State)
    requires Orderly(s, step)
    ensures Shaped(s') && |s'.held| == |s.held|
  {
    var r := step.request;
    var a := Account(s.used, s.held[r]);
    match step.action
    case Resize(n) =>
      var a' := Resized(a, limit, n);
      if a'.None? then s else Put(s, r, a'.value, None)
    case Reserve(maximum) =>
      var a' := Reserved(a, limit, maximum);
      if a'.None? then s else Put(s, r, a'.value, Some(maximum))
    case Finish(actual) => Put(s, r, Finished(a, s.pending[r].value, actual), None)
  }

  ghost predicate Run(s: State, limit: int, steps: seq<Step>)
    decreases |steps|
  {
    steps == [] || (Orderly(s, steps[0]) && Run(Next(s, limit, steps[0]), limit, steps[1..]))
  }

  ghost function After(s: State, limit: int, steps: seq<Step>): State
    requires Run(s, limit, steps)
    decreases |steps|
  {
    if steps == [] then s else After(Next(s, limit, steps[0]), limit, steps[1..])
  }

  function Sum(xs: seq<int>): int {
    if xs == [] then 0 else xs[0] + Sum(xs[1..])
  }

  lemma {:induction false} SumUpdated(xs: seq<int>, i: nat, x: int)
    requires i < |xs|
    ensures Sum(xs[i := x]) == Sum(xs) - xs[i] + x
    decreases |xs|
  {
    if i == 0 {
      assert xs[0 := x][1..] == xs[1..];
    } else {
      assert xs[i := x][1..] == xs[1..][i - 1 := x];
      SumUpdated(xs[1..], i - 1, x);
    }
  }

  lemma {:induction false} SumBounds(xs: seq<int>, i: nat)
    requires i < |xs| && forall j :: 0 <= j < |xs| ==> xs[j] >= 0
    ensures 0 <= xs[i] <= Sum(xs)
    decreases |xs|
  {
    if |xs| > 1 {
      SumBounds(xs[1..], if i == 0 then 0 else i - 1);
    }
  }

  ghost predicate HeldCovers(s: State, r: nat)
    requires r < |s.held| == |s.pending|
  {
    s.held[r] >= 0 && (s.pending[r].Some? ==> 0 <= s.pending[r].value <= s.held[r])
  }

  /** Nothing is lost and nothing is counted twice. */
  ghost predicate Inv(s: State, limit: int) {
    && Shaped(s)
    && s.used == Sum(s.held)
    && 0 <= s.used <= limit
    && forall r {:trigger HeldCovers(s, r)} :: 0 <= r < |s.held| ==> HeldCovers(s, r)
  }

  lemma {:induction false} StartKeepsInv(requests: nat, limit: nat)
    ensures Inv(Start(requests), limit)
  {
    ZerosSum(Start(requests).held);
  }

  lemma {:induction false} ZerosSum(xs: seq<int>)
    requires forall i :: 0 <= i < |xs| ==> xs[i] == 0
    ensures Sum(xs) == 0
    decreases |xs|
  {
    if xs != [] { ZerosSum(xs[1..]); }
  }

  lemma {:induction false} NextKeepsInv(s: State, limit: int, step: Step)
    requires Inv(s, limit) && Orderly(s, step)
    ensures Inv(Next(s, limit, step), limit)
  {
    var r, s' := step.request, Next(s, limit, step);
    assert HeldCovers(s, r);
    if s' != s {
      SumUpdated(s.held, r, s'.held[r]);
      forall q | 0 <= q < |s'.held| ensures HeldCovers(s', q) {
        assert HeldCovers(s, q);
      }
      assert forall j :: 0 <= j < |s'.held| ==> HeldCovers(s', j) ==> s'.held[j] >= 0;
      SumBounds(s'.held, r);
    }
  }

  lemma {:induction false} RunKeepsInvFrom(s: State, limit: int, steps: seq<Step>)
    requires Inv(s, limit) && Run(s, limit, steps)
    ensures Inv(After(s, limit, steps), limit)
    decreases |steps|
  {
    if steps != [] {
      NextKeepsInv(s, limit, steps[0]);
      RunKeepsInvFrom(Next(s, limit, steps[0]), limit, steps[1..]);
    }
  }

  /** Main result: in every interleaving the total is the sum of what the requests hold, and within the limit. */
  lemma {:induction false} RunKeepsInv(requests: nat, limit: nat, steps: seq<Step>)
    requires Run(Start(requests), limit, steps)
    ensures Inv(After(Start(requests), limit, steps), limit)
  {
    StartKeepsInv(requests, limit);
    RunKeepsInvFrom(Start(requests), limit, steps);
  }

  /** A refusal is exact: a request is refused iff granting it would take the requests together over the limit. */
  lemma {:induction false} RefusedIffOverLimit(s: State, limit: int, step: Step)
    requires Inv(s, limit) && Orderly(s, step)
    requires step.action.Resize? ==> step.action.n >= 0
    requires step.action.Reserve? ==> step.action.maximum >= 0
    ensures var held := s.held[step.request];
            var asked := match step.action { case Resize(n) => n case Reserve(m) => held + m case Finish(_) => held };
            Granted(s, limit, step) <==> Sum(s.held[step.request := asked]) <= limit
  {
    var held := s.held[step.request];
    var asked := match step.action { case Resize(n) => n case Reserve(m) => held + m case Finish(_) => held };
    SumUpdated(s.held, step.request, asked);
  }

  /**
   What a request may rely on whatever the others do: asking for no more than it holds is never refused. The deferred
   Resize(0) of a handler is such a step, and takes exactly what the handler held off the total.
   */
  lemma {:induction false} ShrinkingIsNeverRefused(s: State, limit: int, r: nat, n: nat)
    requires Inv(s, limit) && Orderly(s, Step(r, Resize(n))) && n <= s.held[r]
    ensures Granted(s, limit, Step(r, Resize(n)))
    ensures var s' := Next(s, limit, Step(r, Resize(n)));
            s'.held == s.held[r := n] && s'.used == s.used - (s.held[r] - n)
  {
  }

  /** Once every request has left, nothing is in use. */
  lemma {:induction false} AllGivenBack(requests: nat, limit: nat, steps: seq<Step>)
    requires Run(Start(requests), limit, steps)
    requires forall r :: 0 <= r < |After(Start(requests), limit, steps).held| ==>
      After(Start(requests), limit, steps).held[r] == 0
    ensures After(Start(requests), limit, steps).used == 0
  {
    RunKeepsInv(requests, limit, steps);
    ZerosSum(After(Start(requests), limit, steps).held);
  }

  // What a request is charged for.

  /** What reflection sees in a decoded request. spare is the part of a slice's backing array beyond its length. */
  datatype Value =
    | Text(text: seq<byte>)
    | Struct(fields: seq<Value>)
    | Slice(elements: seq<Value>, spare: seq<Value>)
    | Table(keys: seq<Value>, values: seq<Value>)
    | Pointer(target: Option<Value>)
    | Other

  function StringBytes(v: Value): nat
    decreases v
  {
    match v
    case Text(text) => |text|
    case Struct(fields) => AllBytes(fields)
    case Slice(elements, spare) => AllBytes(elements) + AllBytes(spare)
    case Table(keys, values) => AllBytes(keys) + AllBytes(values)
    case Pointer(target) => if target.Some? then StringBytes(target.value) else 0
    case Other => 0
  }

  function AllBytes(vs: seq<Value>): nat
    decreases vs
  {
    if vs == [] then 0 else StringBytes(vs[0]) + AllBytes(vs[1..])
  }

  lemma {:induction false} AllBytesOfConcat(xs: seq<Value>, ys: seq<Value>)
    ensures AllBytes(xs + ys) == AllBytes(xs) + AllBytes(ys)
    decreases |xs|
  {
    if xs == [] {
      assert xs + ys == ys;
    } else {
      assert (xs + ys)[1..] == xs[1..] + ys;
      AllBytesOfConcat(xs[1..], ys);
    }
  }

  lemma {:induction false} AllBytesUpdated(vs: seq<Value>, i: nat, v: Value)
    requires i < |vs|
    ensures AllBytes(vs[i := v]) == AllBytes(vs) - StringBytes(vs[i]) + StringBytes(v)
    decreases |vs|
  {
    if i == 0 {
      assert vs[0 := v][1..] == vs[1..];
    } else {
      assert vs[i := v][1..] == vs[1..][i - 1 := v];
      AllBytesUpdated(vs[1..], i - 1, v);
    }
  }
}
