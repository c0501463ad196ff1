/**
 What Unlambda programs compute, said without the machine: an evaluator by plain recursion over the language's
 reduction rules, and the rules themselves as laws of the machine of scripts/unlambda.py.
 */
module UnlambdaReduction {
  import opened Common
  import opened UnlambdaMachine
  import opened UnlambdaSyntax
  import opened UnlambdaBisimulation

  // The evaluator. It covers every program without `c`, whose captured continuations plain recursion cannot express.

  datatype Answer =
    | Done(value: Value, w: World)
    | Exited(w: World)
    | NoFuel
    | Captures                    // the program applies `c`

  function AfterWrite(w: World, b: byte): World {
    w.(trace := w.trace + [Wrote(b)])
  }

  /** The world after an attempt to read a character. */
  function AfterRead(w: World): World {
    if w.pos < |w.input| then
      World(w.input, w.pos + 1, Some(w.input[w.pos]), w.trace + [Took(w.input[w.pos])])
    else
      World(w.input, w.pos, None, w.trace + [SawEnd])
  }

  function YesNo(b: bool): Value {
    if b then I else V
  }

  function EvalExpr(e: Expr, w: World, fuel: nat): Answer
    decreases fuel
  {
    if fuel == 0 then NoFuel
    else match e
      case Val(v) => Done(v, w)
      case App(rator, rand) =>
        var f := EvalExpr(rator, w, fuel - 1);
        if !f.Done? then f
        else if f.value.D? then Done(D1(rand), f.w)
        else
          var x := EvalExpr(rand, f.w, fuel - 1);
          if !x.Done? then x else ApplyValue(f.value, x.value, x.w, fuel - 1)
  }

  /** The reduction rules. */
  function ApplyValue(f: Value, x: Value, w: World, fuel: nat): Answer
    decreases fuel
  {
    if fuel == 0 then NoFuel
    else match f
      case K => Done(K1(x), w)
      case K1(a) => Done(a, w)
      case S => Done(S1(x), w)
      case S1(a) => Done(S2(a, x), w)
      case S2(a, b) => EvalExpr(App(App(Val(a), Val(x)), App(Val(b), Val(x))), w, fuel - 1)
      case I => Done(x, w)
      case V => Done(V, w)
      case D => Done(D1(Val(x)), w)
      case D1(promise) =>
        var g := EvalExpr(promise, w, fuel - 1);
        if !g.Done? then g else ApplyValue(g.value, x, g.w, fuel - 1)
      case Dot(b) => Done(x, AfterWrite(w, b))
      case Read => ApplyValue(x, YesNo(w.pos < |w.input|), AfterRead(w), fuel - 1)
      case Cmp(b) => ApplyValue(x, YesNo(w.current == Some(b)), w, fuel - 1)
      case Pipe => ApplyValue(x, if w.current.Some? then Dot(w.current.value) else V, w, fuel - 1)
      case E => Exited(w)
      case C => Captures
      case Cont(_) => Captures
  }

  predicate Settled(a: Answer) {
    a.Done? || a.Exited?
  }

  lemma {:induction false} MoreFuel(e: Expr, w: World, fuel: nat, fuel': nat)
    requires fuel <= fuel' && Settled(EvalExpr(e, w, fuel))
    ensures EvalExpr(e, w, fuel') == EvalExpr(e, w, fuel)
    decreases fuel
  {
    if e.App? {
      MoreFuel(e.rator, w, fuel - 1, fuel' - 1);
      var f := EvalExpr(e.rator, w, fuel - 1);
      if f.Done? && !f.value.D? {
        MoreFuel(e.rand, f.w, fuel - 1, fuel' - 1);
        var x := EvalExpr(e.rand, f.w, fuel - 1);
        if x.Done? { MoreApplyFuel(f.value, x.value, x.w, fuel - 1, fuel' - 1); }
      }
    }
  }

  lemma {:induction false} MoreApplyFuel(f: Value, x: Value, w: World, fuel: nat, fuel': nat)
    requires fuel <= fuel' && Settled(ApplyValue(f, x, w, fuel))
    ensures ApplyValue(f, x, w, fuel') == ApplyValue(f, x, w, fuel)
    decreases fuel
  {
    match f
    case S2(a, b) => MoreFuel(App(App(Val(a), Val(x)), App(Val(b), Val(x))), w, fuel - 1, fuel' - 1);
    case D1(promise) =>
      MoreFuel(promise, w, fuel - 1, fuel' - 1);
      var g := EvalExpr(promise, w, fuel - 1);
      if g.Done? { MoreApplyFuel(g.value, x, g.w, fuel - 1, fuel' - 1); }
    case Read => MoreApplyFuel(x, YesNo(w.pos < |w.input|), AfterRead(w), fuel - 1, fuel' - 1);
    case Cmp(b) => MoreApplyFuel(x, YesNo(w.current == Some(b)), w, fuel - 1, fuel' - 1);
    case Pipe => MoreApplyFuel(x, if w.current.Some? then Dot(w.current.value) else V, w, fuel - 1, fuel' - 1);
    case _ =>
  }

  // From the evaluator to the machine.

  /** The machine comes back with the value, or stops where the evaluator exits. */
  function Arrival(a: Answer, k: Kont): State
    requires Settled(a)
  {
    if a.Done? then State(Return(a.value, k), a.w) else State(Stopped, a.w)
  }

  lemma {:induction false} Chain(m: nat, n: nat, s: State, t: State, u: State)
    requires Steps(Textbook, m, s) == t && Steps(Textbook, n, t) == u
    ensures Steps(Textbook, m + n, s) == u
  {
    StepsAdd(Textbook, m, n, s);
  }

  lemma {:induction false} Once(s: State)
    ensures Steps(Textbook, 1, s) == Step(Textbook, s)
  {
    assert Steps(Textbook, 1, s) == Steps(Textbook, 0, Step(Textbook, s));
  }

  lemma {:induction false} MachineEvaluates(e: Expr, w: World, fuel: nat, k: Kont) returns (n: nat)
    requires Settled(EvalExpr(e, w, fuel))
    ensures Steps(Textbook, n, State(Eval(e, k), w)) == Arrival(EvalExpr(e, w, fuel), k)
    decreases fuel, 0
  {
    var s := State(Eval(e, k), w);
    Once(s);
    n := 1;
    if e.App? {
      var f := EvalExpr(e.rator, w, fuel - 1);
      var m := MachineEvaluates(e.rator, w, fuel - 1, Arg(e.rand, k));
      Chain(1, m, s, Step(Textbook, s), Arrival(f, Arg(e.rand, k)));
      n := 1 + m;
      if f.Done? {
        var s1 := Arrival(f, Arg(e.rand, k));
        Once(s1);
        Chain(n, 1, s, s1, Step(Textbook, s1));
        n := n + 1;
        if !f.value.D? {
          m := MachineAppliesOperand(f.value, e.rand, f.w, fuel - 1, k);
          Chain(n, m, s, Step(Textbook, s1), Arrival(EvalExpr(e, w, fuel), k));
          n := n + m;
        }
      }
    }
  }

  /** With the operator known: the operand, then the application. */
  lemma {:induction false} MachineAppliesOperand(f: Value, rand: Expr, w: World, fuel: nat, k: Kont) returns (n: nat)
    requires Settled(EvalExpr(rand, w, fuel))
    requires var x := EvalExpr(rand, w, fuel); x.Done? ==> Settled(ApplyValue(f, x.value, x.w, fuel))
    ensures var x := EvalExpr(rand, w, fuel);
            Steps(Textbook, n, State(Eval(rand, ApplyTo(f, k)), w)) ==
            Arrival(if x.Done? then ApplyValue(f, x.value, x.w, fuel) else x, k)
    decreases fuel, 1
  {
    var s, x := State(Eval(rand, ApplyTo(f, k)), w), EvalExpr(rand, w, fuel);
    n := MachineEvaluates(rand, w, fuel, ApplyTo(f, k));
    if x.Done? {
      var s1 := Arrival(x, ApplyTo(f, k));
      Once(s1);
      Chain(n, 1, s, s1, Step(Textbook, s1));
      var m := MachineApplies(f, x.value, x.w, fuel, k);
      Chain(n + 1, m, s, Step(Textbook, s1), Arrival(ApplyValue(f, x.value, x.w, fuel), k));
      n := n + 1 + m;
    }
  }

  lemma {:induction false} MachineApplies(f: Value, x: Value, w: World, fuel: nat, k: Kont) returns (n: nat)
    requires Settled(ApplyValue(f, x, w, fuel))
    ensures Steps(Textbook, n, State(Apply(f, x, k), w)) == Arrival(ApplyValue(f, x, w, fuel), k)
    decreases fuel, 0
  {
    var s := State(Apply(f, x, k), w);
    var s1 := Step(Textbook, s);
    Once(s);
    n := 1;
    var m := 0;
    match f {
      case S2(a, b) => m := MachineEvaluates(App(App(Val(a), Val(x)), App(Val(b), Val(x))), w, fuel - 1, k);
      case D1(promise) => m := MachineForces(promise, x, w, fuel - 1, k);
      case Read => m := MachineApplies(x, YesNo(w.pos < |w.input|), AfterRead(w), fuel - 1, k);
      case Cmp(b) => m := MachineApplies(x, YesNo(w.current == Some(b)), w, fuel - 1, k);
      case Pipe => m := MachineApplies(x, if w.current.Some? then Dot(w.current.value) else V, w, fuel - 1, k);
      case _ =>
    }
    Chain(1, m, s, s1, Arrival(ApplyValue(f, x, w, fuel), k));
    n := 1 + m;
  }

  /** A promise is evaluated, then applied. */
  lemma {:induction false} MachineForces(promise: Expr, x: Value, w: World, fuel: nat, k: Kont) returns (n: nat)
    requires Settled(EvalExpr(promise, w, fuel))
    requires var g := EvalExpr(promise, w, fuel); g.Done? ==> Settled(ApplyValue(g.value, x, g.w, fuel))
    ensures var g := EvalExpr(promise, w, fuel);
            Steps(Textbook, n, State(Eval(promise, ApplyWith(x, k)), w)) ==
            Arrival(if g.Done? then ApplyValue(g.value, x, g.w, fuel) else g, k)
    decreases fuel, 1
  {
    var s, g := State(Eval(promise, ApplyWith(x, k)), w), EvalExpr(promise, w, fuel);
    n := MachineEvaluates(promise, w, fuel, ApplyWith(x, k));
    if g.Done? {
      var s1 := Arrival(g, ApplyWith(x, k));
      Once(s1);
      Chain(n, 1, s, s1, Step(Textbook, s1));
      var m := MachineApplies(g.value, x, g.w, fuel, k);
      Chain(n + 1, m, s, Step(Textbook, s1), Arrival(ApplyValue(g.value, x, g.w, fuel), k));
      n := n + 1 + m;
    }
  }

  // From the machine to the evaluator.

  predicate WithoutC(e: Expr) {
    match e
    case App(rator, rand) => WithoutC(rator) && WithoutC(rand)
    case Val(v) => ValueWithoutC(v)
  }

  predicate ValueWithoutC(v: Value) {
    match v
    case K1(a) => ValueWithoutC(a)
    case S1(a) => ValueWithoutC(a)
    case S2(a, b) => ValueWithoutC(a) && ValueWithoutC(b)
    case D1(promise) => WithoutC(promise)
    case C => false
    case Cont(_) => false
    case _ => true
  }

  lemma {:induction false} AnswerWithoutC(e: Expr, w: World, fuel: nat)
    requires WithoutC(e) && EvalExpr(e, w, fuel).Done?
    ensures ValueWithoutC(EvalExpr(e, w, fuel).value)
    decreases fuel
  {
    if e.App? {
      AnswerWithoutC(e.rator, w, fuel - 1);
      var f := EvalExpr(e.rator, w, fuel - 1);
      if !f.value.D? {
        AnswerWithoutC(e.rand, f.w, fuel - 1);
        var x := EvalExpr(e.rand, f.w, fuel - 1);
        AppliedWithoutC(f.value, x.value, x.w, fuel - 1);
      }
    }
  }

  lemma {:induction false} AppliedWithoutC(f: Value, x: Value, w: World, fuel: nat)
    requires ValueWithoutC(f) && ValueWithoutC(x) && ApplyValue(f, x, w, fuel).Done?
    ensures ValueWithoutC(ApplyValue(f, x, w, fuel).value)
    decreases fuel
  {
    match f
    case S2(a, b) => AnswerWithoutC(App(App(Val(a), Val(x)), App(Val(b), Val(x))), w, fuel - 1);
    case D1(promise) =>
      AnswerWithoutC(promise, w, fuel - 1);
      var g := EvalExpr(promise, w, fuel - 1);
      AppliedWithoutC(g.value, x, g.w, fuel - 1);
    case Read => AppliedWithoutC(x, YesNo(w.pos < |w.input|), AfterRead(w), fuel - 1);
    case Cmp(b) => AppliedWithoutC(x, YesNo(w.current == Some(b)), w, fuel - 1);
    case Pipe => AppliedWithoutC(x, if w.current.Some? then Dot(w.current.value) else V, w, fuel - 1);
    case _ =>
  }

  ghost predicate StopsIn(n: nat, s: State, end: World) {
    Steps(Textbook, n, s) == State(Stopped, end)
  }

  /** The answer explains a run of n steps that stops in end: it exits there, or m steps are left with its value. */
  ghost predicate Explains(a: Answer, k: Kont, m: nat, n: nat, end: World) {
    if a.Done? then m < n && StopsIn(m, State(Return(a.value, k), a.w), end) else a == Exited(end)
  }

  lemma {:induction false} OneLess(n: nat, s: State, end: World)
    requires StopsIn(n, s, end) && !s.c.Stopped?
    ensures n > 0 && StopsIn(n - 1, Step(Textbook, s), end)
  {
  }

  lemma {:induction false} HaltIsEvaluated(e: Expr, k: Kont, w: World, n: nat, end: World) returns (fuel: nat, m: nat)
    requires WithoutC(e) && StopsIn(n, State(Eval(e, k), w), end)
    ensures Explains(EvalExpr(e, w, fuel), k, m, n, end)
    decreases n, 0
  {
    var s := State(Eval(e, k), w);
    OneLess(n, s, end);
    match e {
      case Val(v) => fuel, m := 1, n - 1;
      case App(rator, rand) =>
        var fuel1, m1 := HaltIsEvaluated(rator, Arg(rand, k), w, n - 1, end);
        var f := EvalExpr(rator, w, fuel1);
        fuel, m := fuel1 + 1, 0;
        if f.Done? {
          var s1 := State(Return(f.value, Arg(rand, k)), f.w);
          OneLess(m1, s1, end);
          AnswerWithoutC(rator, w, fuel1);
          if f.value.D? {
            m := m1 - 1;
          } else {
            var fuel2;
            fuel2, m := OperandIsEvaluated(f.value, rand, k, f.w, m1 - 1, end);
            fuel := if fuel1 > fuel2 then fuel1 else fuel2;
            MoreFuel(rator, w, fuel1, fuel);
            MoreOperandFuel(f.value, rand, f.w, fuel2, fuel);
            fuel := fuel + 1;
          }
        }
    }
  }

  /** The operand and then the application. */
  function OperandAnswer(f: Value, rand: Expr, w: World, fuel: nat): Answer {
    var x := EvalExpr(rand, w, fuel);
    if x.Done? then ApplyValue(f, x.value, x.w, fuel) else x
  }

  lemma {:induction false} MoreOperandFuel(f: Value, rand: Expr, w: World, fuel: nat, fuel': nat)
    requires fuel <= fuel' && Settled(OperandAnswer(f, rand, w, fuel))
    ensures OperandAnswer(f, rand, w, fuel') == OperandAnswer(f, rand, w, fuel)
  {
    MoreFuel(rand, w, fuel, fuel');
    var x := EvalExpr(rand, w, fuel);
    if x.Done? { MoreApplyFuel(f, x.value, x.w, fuel, fuel'); }
  }

  lemma {:induction false} OperandIsEvaluated(f: Value, rand: Expr, k: Kont, w: World, n: nat, end: World)
    returns (fuel: nat, m: nat)
    requires ValueWithoutC(f) && WithoutC(rand) && StopsIn(n, State(Eval(rand, ApplyTo(f, k)), w), end)
    ensures Explains(OperandAnswer(f, rand, w, fuel), k, m, n, end)
    decreases n, 1
  {
    var fuel1, m1 := HaltIsEvaluated(rand, ApplyTo(f, k), w, n, end);
    var x := EvalExpr(rand, w, fuel1);
    fuel, m := fuel1, 0;
    if x.Done? {
      OneLess(m1, State(Return(x.value, ApplyTo(f, k)), x.w), end);
      AnswerWithoutC(rand, w, fuel1);
      var fuel2;
      fuel2, m := HaltIsApplied(f, x.value, k, x.w, m1 - 1, end);
      fuel := if fuel1 > fuel2 then fuel1 else fuel2;
      MoreFuel(rand, w, fuel1, fuel);
      MoreApplyFuel(f, x.value, x.w, fuel2, fuel);
    }
  }

  lemma {:induction false} HaltIsApplied(f: Value, x: Value, k: Kont, w: World, n: nat, end: World)
    returns (fuel: nat, m: nat)
    requires ValueWithoutC(f) && ValueWithoutC(x) && StopsIn(n, State(Apply(f, x, k), w), end)
    ensures Explains(ApplyValue(f, x, w, fuel), k, m, n, end)
    decreases n, 0
  {
    OneLess(n, State(Apply(f, x, k), w), end);
    fuel, m := 1, n - 1;
    match f {
      case S2(a, b) =>
        fuel, m := HaltIsEvaluated(App(App(Val(a), Val(x)), App(Val(b), Val(x))), k, w, n - 1, end);
        fuel := fuel + 1;
      case D1(promise) =>
        fuel, m := PromiseIsForced(promise, x, k, w, n - 1, end);
        fuel := fuel + 1;
      case Read =>
        fuel, m := HaltIsApplied(x, YesNo(w.pos < |w.input|), k, AfterRead(w), n - 1, end);
        fuel := fuel + 1;
      case Cmp(b) =>
        fuel, m := HaltIsApplied(x, YesNo(w.current == Some(b)), k, w, n - 1, end);
        fuel := fuel + 1;
      case Pipe =>
        fuel, m := HaltIsApplied(x, if w.current.Some? then Dot(w.current.value) else V, k, w, n - 1, end);
        fuel := fuel + 1;
      case E =>
        StaysStopped(Textbook, n - 1, State(Stopped, w));
        m := 0;
      case _ =>
    }
  }

  lemma {:induction false} PromiseIsForced(promise: Expr, x: Value, k: Kont, w: World, n: nat, end: World)
    returns (fuel: nat, m: nat)
    requires WithoutC(promise) && ValueWithoutC(x) && StopsIn(n, State(Eval(promise, ApplyWith(x, k)), w), end)
    ensures var g := EvalExpr(promise, w, fuel);
            Explains(if g.Done? then ApplyValue(g.value, x, g.w, fuel) else g, k, m, n, end)
    decreases n, 1
  {
    var fuel1, m1 := HaltIsEvaluated(promise, ApplyWith(x, k), w, n, end);
    var g := EvalExpr(promise, w, fuel1);
    fuel, m := fuel1, 0;
    if g.Done? {
      OneLess(m1, State(Return(g.value, ApplyWith(x, k)), g.w), end);
      AnswerWithoutC(promise, w, fuel1);
      var fuel2;
      fuel2, m := HaltIsApplied(g.value, x, k, g.w, m1 - 1, end);
      fuel := if fuel1 > fuel2 then fuel1 else fuel2;
      MoreFuel(promise, w, fuel1, fuel);
      MoreApplyFuel(g.value, x, g.w, fuel2, fuel);
    }
  }

  // Both directions.

  /** The program ends in the world w, by its reduction rules. */
  ghost predicate Computes(program: Expr, input: seq<byte>, w: World) {
    exists fuel: nat {:trigger EvalExpr(program, World(input, 0, None, []), fuel)} ::
      var a := EvalExpr(program, World(input, 0, None, []), fuel); Settled(a) && a.w == w
  }

  lemma {:induction false} TextbookComputes(program: Expr, input: seq<byte>, w: World)
    requires WithoutC(program)
    ensures Halts(Textbook, Start(program, input), w) <==> Computes(program, input, w)
  {
    var w0 := World(input, 0, None, []);
    if Halts(Textbook, Start(program, input), w) {
      var n: nat :| Steps(Textbook, n, Start(program, input)) == State(Stopped, w);
      var fuel, m := HaltIsEvaluated(program, Empty, w0, n, w);
      var a := EvalExpr(program, w0, fuel);
      if a.Done? {
        OneLess(m, State(Return(a.value, Empty), a.w), w);
        StaysStopped(Textbook, m - 1, State(Stopped, a.w));
      }
      assert Settled(a) && a.w == w;
    }
    if Computes(program, input, w) {
      var fuel: nat :| Settled(EvalExpr(program, w0, fuel)) && EvalExpr(program, w0, fuel).w == w;
      var n := MachineEvaluates(program, w0, fuel, Empty);
      var t := Arrival(EvalExpr(program, w0, fuel), Empty);
      Once(t);
      if t.c.Return? { Chain(n, 1, Start(program, input), t, State(Stopped, w)); }
    }
  }

  /**
   Main result: for every source program without `c` and every input, the interpreter halts in a world (what was
   written and read, the current character) exactly when evaluation by the reduction rules ends in it.
   */
  lemma {:induction false} InterpreterComputes(program: Expr, input: seq<byte>, w: World)
    requires Plain(program) && WithoutC(program)
    ensures Halts(FastPath, Start(program, input), w) <==> Computes(program, input, w)
  {
    FastPathIsUnobservable(program, input, w);
    TextbookComputes(program, input, w);
  }

  // The rules as laws of the machine, `c` included, in every continuation and under both treatments of `s`.

  ghost predicate Leads(rule: Rule, s: State, t: State) {
    exists n: nat :: Steps(rule, n, s) == t
  }

  lemma {:induction false} LeadsStep(rule: Rule, s: State, t: State)
    requires Leads(rule, Step(rule, s), t)
    ensures Leads(rule, s, t)
  {
    var n: nat :| Steps(rule, n, Step(rule, s)) == t;
    assert Steps(rule, n + 1, s) == t;
  }

  lemma {:induction false} LeadsNowhere(rule: Rule, s: State)
    ensures Leads(rule, s, s)
  {
    assert Steps(rule, 0, s) == s;
  }

  function App1(f: Value, x: Value): Expr {
    App(Val(f), Val(x))
  }

  /** Evaluating `fx, both values and f not `d`, applies f to x. */
  lemma {:induction false} LeadsToApply(rule: Rule, f: Value, x: Value, k: Kont, w: World, t: State)
    requires !f.D? && Leads(rule, State(Apply(f, x, k), w), t)
    ensures Leads(rule, State(Eval(App1(f, x), k), w), t)
  {
    var s3 := State(Return(x, ApplyTo(f, k)), w);
    LeadsStep(rule, s3, t);
    LeadsStep(rule, State(Eval(Val(x), ApplyTo(f, k)), w), t);
    LeadsStep(rule, State(Return(f, Arg(Val(x), k)), w), t);
    LeadsStep(rule, State(Eval(Val(f), Arg(Val(x), k)), w), t);
    LeadsStep(rule, State(Eval(App1(f, x), k), w), t);
  }

  lemma {:induction false} LeadsInOne(rule: Rule, f: Value, x: Value, k: Kont, w: World)
    requires !f.D?
    ensures Leads(rule, State(Eval(App1(f, x), k), w), Step(rule, State(Apply(f, x, k), w)))
  {
    var t := Step(rule, State(Apply(f, x, k), w));
    LeadsNowhere(rule, t);
    LeadsStep(rule, State(Apply(f, x, k), w), t);
    LeadsToApply(rule, f, x, k, w, t);
  }

  /** ``kxy is x, `ix is x, `vx is v, and s collects two arguments. */
  lemma {:induction false} CombinatorLaws(rule: Rule, a: Value, x: Value, k: Kont, w: World)
    ensures Leads(rule, State(Eval(App1(K, x), k), w), State(Return(K1(x), k), w))
    ensures Leads(rule, State(Eval(App1(K1(a), x), k), w), State(Return(a, k), w))
    ensures Leads(rule, State(Eval(App1(S, x), k), w), State(Return(S1(x), k), w))
    ensures Leads(rule, State(Eval(App1(S1(a), x), k), w), State(Return(S2(a, x), k), w))
    ensures Leads(rule, State(Eval(App1(I, x), k), w), State(Return(x, k), w))
    ensures Leads(rule, State(Eval(App1(V, x), k), w), State(Return(V, k), w))
  {
    LeadsInOne(rule, K, x, k, w);
    LeadsInOne(rule, K1(a), x, k, w);
    LeadsInOne(rule, S, x, k, w);
    LeadsInOne(rule, S1(a), x, k, w);
    LeadsInOne(rule, I, x, k, w);
    LeadsInOne(rule, V, x, k, w);
  }

  /** ``kxy: both arguments in turn. */
  lemma {:induction false} ConstantLaw(rule: Rule, x: Value, y: Value, k: Kont, w: World)
    ensures Leads(rule, State(Eval(App(App1(K, x), Val(y)), k), w), State(Return(x, k), w))
  {
    var t := State(Return(x, k), w);
    LeadsNowhere(rule, t);
    LeadsStep(rule, State(Apply(K1(x), y, k), w), t);
    LeadsStep(rule, State(Return(y, ApplyTo(K1(x), k)), w), t);
    LeadsStep(rule, State(Eval(Val(y), ApplyTo(K1(x), k)), w), t);
    LeadsStep(rule, State(Return(K1(x), Arg(Val(y), k)), w), t);
    LeadsStep(rule, State(Apply(K, x, Arg(Val(y), k)), w), t);
    LeadsToApply(rule, K, x, Arg(Val(y), k), w, t);
    LeadsStep(rule, State(Eval(App(App1(K, x), Val(y)), k), w), t);
  }

  /** ```sxyz becomes ``xz`yz. */
  lemma {:induction false} SubstitutionLaw(a: Value, b: Value, x: Value, k: Kont, w: World)
    ensures Leads(Textbook, State(Eval(App1(S2(a, b), x), k), w), State(Eval(App(App1(a, x), App1(b, x)), k), w))
  {
    LeadsInOne(Textbook, S2(a, b), x, k, w);
  }

  /** `.bx prints b, `@x reads, `?bx and `|x look at the current character; e stops. */
  lemma {:induction false} WorldLaws(rule: Rule, b: byte, x: Value, k: Kont, w: World)
    ensures Leads(rule, State(Eval(App1(Dot(b), x), k), w), State(Return(x, k), AfterWrite(w, b)))
    ensures Leads(rule, State(Eval(App1(Read, x), k), w), State(Apply(x, YesNo(w.pos < |w.input|), k), AfterRead(w)))
    ensures Leads(rule, State(Eval(App1(Cmp(b), x), k), w), State(Apply(x, YesNo(w.current == Some(b)), k), w))
    ensures Leads(rule, State(Eval(App1(Pipe, x), k), w),
                  State(Apply(x, if w.current.Some? then Dot(w.current.value) else V, k), w))
    ensures Leads(rule, State(Eval(App1(E, x), k), w), State(Stopped, w))
  {
    LeadsInOne(rule, Dot(b), x, k, w);
    LeadsInOne(rule, Read, x, k, w);
    LeadsInOne(rule, Cmp(b), x, k, w);
    LeadsInOne(rule, Pipe, x, k, w);
    LeadsInOne(rule, E, x, k, w);
  }

  /** d delays its operand unevaluated, until the promise is applied; c passes the continuation, which returns to it. */
  lemma {:induction false} ControlLaws(rule: Rule, e: Expr, g: Value, x: Value, k: Kont, k': Kont, w: World)
    ensures Leads(rule, State(Eval(App(Val(D), e), k), w), State(Return(D1(e), k), w))
    ensures Leads(rule, State(Eval(App1(D1(e), x), k), w), State(Eval(e, ApplyWith(x, k)), w))
    ensures Leads(rule, State(Return(g, ApplyWith(x, k)), w), State(Apply(g, x, k), w))
    ensures Leads(rule, State(Eval(App1(C, x), k), w), State(Apply(x, Cont(k), k), w))
    ensures Leads(rule, State(Eval(App1(Cont(k'), x), k), w), State(Return(x, k'), w))
  {
    var t := State(Return(D1(e), k), w);
    LeadsNowhere(rule, t);
    LeadsStep(rule, State(Return(D, Arg(e, k)), w), t);
    LeadsStep(rule, State(Eval(Val(D), Arg(e, k)), w), t);
    LeadsStep(rule, State(Eval(App(Val(D), e), k), w), t);
    LeadsInOne(rule, D1(e), x, k, w);
    LeadsNowhere(rule, State(Apply(g, x, k), w));
    LeadsStep(rule, State(Return(g, ApplyWith(x, k)), w), State(Apply(g, x, k), w));
    LeadsInOne(rule, C, x, k, w);
    LeadsInOne(rule, Cont(k'), x, k, w);
  }
}
