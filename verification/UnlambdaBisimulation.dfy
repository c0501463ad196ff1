/**
 The S2 frame of scripts/unlambda.py is an optimisation.  This module proves
 that the machine using it and the textbook machine are stutter-bisimilar: each
 interpreter transition is matched by a bounded number of textbook transitions
 between erased states, so both halt on the same programs and show the same
 reads and writes.
 */
module UnlambdaBisimulation {
  import opened Common
  import opened UnlambdaMachine
  import opened UnlambdaSyntax

  // Erasure replaces every S2 frame by the textbook frame waiting for `yz, also
  // inside captured continuations and promises.

  function EraseValue(v: Value): Value {
    match v
    case K1(a) => K1(EraseValue(a))
    case S1(a) => S1(EraseValue(a))
    case S2(a, b) => S2(EraseValue(a), EraseValue(b))
    case D1(e) => D1(EraseExpr(e))
    case Cont(k) => Cont(EraseKont(k))
    case _ => v
  }

  function EraseExpr(e: Expr): Expr {
    match e
    case App(f, x) => App(EraseExpr(f), EraseExpr(x))
    case Val(v) => Val(EraseValue(v))
  }

  function EraseKont(k: Kont): Kont {
    match k
    case Empty => Empty
    case Arg(e, next) => Arg(EraseExpr(e), EraseKont(next))
    case ApplyTo(f, next) => ApplyTo(EraseValue(f), EraseKont(next))
    case ApplyWith(x, next) => ApplyWith(EraseValue(x), EraseKont(next))
    case S2Frame(y, z, next) => Arg(App(Val(EraseValue(y)), Val(EraseValue(z))), EraseKont(next))
  }

  function EraseControl(c: Control): Control {
    match c
    case Eval(e, k) => Eval(EraseExpr(e), EraseKont(k))
    case Return(v, k) => Return(EraseValue(v), EraseKont(k))
    case Apply(f, x, k) => Apply(EraseValue(f), EraseValue(x), EraseKont(k))
    case Stopped => Stopped
  }

  /** Applying `d` to a value only builds a promise, so that point erases to the promise itself. */
  function Erase(s: State): State {
    if AppliesD(s) then State(Return(D1(Val(EraseValue(s.c.x))), EraseKont(s.c.k)), s.w)
    else s.(c := EraseControl(s.c))
  }

  predicate AppliesD(s: State) {
    s.c.Apply? && s.c.f.D?
  }

  /** Textbook transitions that match the next interpreter transition from `s`. */
  function Cost(s: State): nat {
    match s.c
    case Return(v, S2Frame(y, _, _)) => if v.D? then 1 else if y.D? then 4 else 6
    case Apply(S2(a, _), _, _) => if a.D? then 5 else 7
    case _ => if AppliesD(s) then 0 else if AppliesD(Step(FastPath, s)) then 2 else 1
  }

  function TotalCost(n: nat, s: State): nat {
    if n == 0 then 0 else Cost(s) + TotalCost(n - 1, Step(FastPath, s))
  }

  /** Evaluating ``vw`, both values, reaches the application of v to w. */
  lemma {:induction false} EvalValuePair(v: Value, w: Value, k: Kont, world: World)
    ensures var s := State(Eval(App(Val(v), Val(w)), k), world);
            Steps(Textbook, if v.D? then 3 else 5, s) ==
              State(if v.D? then Return(D1(Val(w)), k) else Apply(v, w, k), world)
    ensures var s := State(Eval(App(Val(v), Val(w)), k), world);
            forall j: nat :: j <= (if v.D? then 3 else 5) ==> Steps(Textbook, j, s).w == world
  {
    var s := State(Eval(App(Val(v), Val(w)), k), world);
    var s1 := Step(Textbook, s);
    var s2 := Step(Textbook, s1);
    var s3 := Step(Textbook, s2);
    var s4 := Step(Textbook, s3);
    var s5 := Step(Textbook, s4);
    assert Steps(Textbook, 0, s) == s;
    assert Steps(Textbook, 1, s) == Steps(Textbook, 0, s1);
    assert Steps(Textbook, 2, s) == Steps(Textbook, 1, s1) == Steps(Textbook, 0, s2);
    assert Steps(Textbook, 3, s) == Steps(Textbook, 2, s1) == Steps(Textbook, 1, s2) == Steps(Textbook, 0, s3);
    if !v.D? {
      StepsAdd(Textbook, 3, 1, s);
      StepsAdd(Textbook, 3, 2, s);
      assert Steps(Textbook, 2, s3) == Steps(Textbook, 1, s4) == Steps(Textbook, 0, s5);
      assert Steps(Textbook, 1, s3) == Steps(Textbook, 0, s4);
    }
  }

  /** `n` textbook steps lead from `s` to `t`, and on the way the world is that of `s` or of `t`. */
  ghost predicate Reaches(n: nat, s: State, t: State) {
    && Steps(Textbook, n, s) == t
    && forall j: nat :: j <= n ==> Steps(Textbook, j, s).w == s.w || Steps(Textbook, j, s).w == t.w
  }

  lemma {:induction false} ReachesAfterStep(n: nat, s: State, t: State)
    requires Reaches(n, Step(Textbook, s), t)
    requires Step(Textbook, s).w == s.w || Step(Textbook, s).w == t.w
    ensures Reaches(n + 1, s, t)
  {
    forall j: nat | j <= n + 1
      ensures Steps(Textbook, j, s).w == s.w || Steps(Textbook, j, s).w == t.w
    {
      if j > 0 {
        assert Steps(Textbook, j, s) == Steps(Textbook, j - 1, Step(Textbook, s));
      }
    }
  }

  /** Away from S2 both machines take the same transition. */
  lemma {:induction false} PlainStepCommutes(s: State)
    requires !(s.c.Return? && s.c.k.S2Frame?) && !(s.c.Apply? && (s.c.f.S2? || s.c.f.D?))
    ensures var t := Step(FastPath, s);
            Step(Textbook, Erase(s)) == t.(c := EraseControl(t.c))
  {
    match s.c {
      case Eval(e, k) => if e.App? {} else {}
      case Return(v, k) =>
        match k {
          case Empty =>
          case Arg(e, next) => assert EraseValue(v).D? <==> v.D?;
          case ApplyTo(f, next) =>
          case ApplyWith(x, next) =>
        }
      case Apply(f, x, k) =>
        match f {
          case D1(e) =>
          case Cont(saved) =>
          case _ =>
        }
      case Stopped =>
    }
  }

  /** One interpreter transition is matched by exactly `Cost` textbook transitions. */
  lemma {:induction false} StepSimulated(s: State)
    ensures Reaches(Cost(s), Erase(s), Erase(Step(FastPath, s)))
  {
    var t := Erase(Step(FastPath, s));
    var e := Erase(s);
    var e1 := Step(Textbook, e);
    if s.c.Return? && s.c.k.S2Frame? {
      var v, y, z, next := s.c.v, s.c.k.y, s.c.k.z, s.c.k.next;
      assert EraseValue(v).D? <==> v.D?;
      assert EraseValue(y).D? <==> y.D?;
      if v.D? {
        assert EraseExpr(App(Val(y), Val(z))) == App(Val(EraseValue(y)), Val(EraseValue(z)));
        assert Reaches(0, e1, t);
        ReachesAfterStep(0, e, t);
      } else {
        EvalValuePair(EraseValue(y), EraseValue(z), ApplyTo(EraseValue(v), EraseKont(next)), s.w);
        assert Reaches(Cost(s) - 1, e1, t);
        ReachesAfterStep(Cost(s) - 1, e, t);
      }
    } else if s.c.Apply? && s.c.f.S2? {
      var a, b, x, k := s.c.f.x, s.c.f.y, s.c.x, s.c.k;
      assert EraseValue(a).D? <==> a.D?;
      EvalValuePair(EraseValue(a), EraseValue(x),
                    Arg(App(Val(EraseValue(b)), Val(EraseValue(x))), EraseKont(k)), s.w);
      assert Reaches(Cost(s) - 2, Step(Textbook, e1), t);
      ReachesAfterStep(Cost(s) - 2, e1, t);
      ReachesAfterStep(Cost(s) - 1, e, t);
    } else if AppliesD(s) {
      assert EraseExpr(Val(s.c.x)) == Val(EraseValue(s.c.x));
    } else {
      PlainStepCommutes(s);
      if AppliesD(Step(FastPath, s)) {
        assert Reaches(0, Step(Textbook, e1), t);
        ReachesAfterStep(0, e1, t);
        ReachesAfterStep(1, e, t);
      } else {
        assert Reaches(0, e1, t);
        ReachesAfterStep(0, e, t);
      }
    }
  }

  /** The whole run: after any number of interpreter steps the textbook machine is in the erased state. */
  lemma {:induction false} RunSimulated(n: nat, s: State)
    ensures Steps(Textbook, TotalCost(n, s), Erase(s)) == Erase(Steps(FastPath, n, s))
  {
    if n > 0 {
      StepSimulated(s);
      RunSimulated(n - 1, Step(FastPath, s));
      StepsAdd(Textbook, Cost(s), TotalCost(n - 1, Step(FastPath, s)), Erase(s));
    }
  }

  /** The interpreter cannot stutter forever: every two of its steps cost at least one textbook step. */
  lemma {:induction false} CostGrows(n: nat, s: State)
    ensures 2 * TotalCost(n, s) + (if AppliesD(s) then 1 else 0) >= n
  {
    if n > 0 {
      CostGrows(n - 1, Step(FastPath, s));
    }
  }

  /** At every textbook point, the world is one the interpreter also shows. */
  lemma {:induction false} WorldsCovered(m: nat, n: nat, s: State) returns (i: nat)
    requires m <= TotalCost(n, s)
    ensures i <= n && Steps(Textbook, m, Erase(s)).w == Steps(FastPath, i, s).w
    decreases n
  {
    i := 0;
    if n > 0 && m > 0 {
      var s' := Step(FastPath, s);
      StepSimulated(s);
      if m <= Cost(s) {
        i := if Steps(Textbook, m, Erase(s)).w == s.w then 0 else 1;
        assert Steps(FastPath, 1, s) == Steps(FastPath, 0, s');
      } else {
        StepsAdd(Textbook, Cost(s), m - Cost(s), Erase(s));
        i := WorldsCovered(m - Cost(s), n - 1, s');
        i := i + 1;
      }
    }
  }

  ghost predicate Halts(rule: Rule, s: State, w: World) {
    exists n: nat :: Steps(rule, n, s) == State(Stopped, w)
  }

  ghost predicate Shows(rule: Rule, s: State, w: World) {
    exists n: nat :: Steps(rule, n, s).w == w
  }

  lemma {:induction false} HaltsTransfer(s: State, w: World)
    ensures Halts(FastPath, s, w) <==> Halts(Textbook, Erase(s), w)
  {
    if Halts(FastPath, s, w) {
      var n: nat :| Steps(FastPath, n, s) == State(Stopped, w);
      RunSimulated(n, s);
    }
    if Halts(Textbook, Erase(s), w) {
      var m: nat :| Steps(Textbook, m, Erase(s)) == State(Stopped, w);
      var n := 2 * m + 1;
      CostGrows(n, s);
      var total := TotalCost(n, s);
      StepsAdd(Textbook, m, total - m, Erase(s));
      StaysStopped(Textbook, total - m, State(Stopped, w));
      RunSimulated(n, s);
      assert Steps(FastPath, n, s) == State(Stopped, w);
    }
  }

  lemma {:induction false} ShowsTransfer(s: State, w: World)
    ensures Shows(FastPath, s, w) <==> Shows(Textbook, Erase(s), w)
  {
    if Shows(FastPath, s, w) {
      var n: nat :| Steps(FastPath, n, s).w == w;
      RunSimulated(n, s);
    }
    if Shows(Textbook, Erase(s), w) {
      var m: nat :| Steps(Textbook, m, Erase(s)).w == w;
      CostGrows(2 * m + 1, s);
      var i := WorldsCovered(m, 2 * m + 1, s);
    }
  }

  lemma {:induction false} PlainErasesToItself(e: Expr)
    requires Plain(e)
    ensures EraseExpr(e) == e
  {
    if e.App? {
      PlainErasesToItself(e.rator);
      PlainErasesToItself(e.rand);
    }
  }

  /**
   Main result: for every source program and every input, the interpreter and
   the textbook machine pass through the same worlds (input position, current
   character, bytes written and read so far), and one halts in a world exactly
   when the other does.
   */
  lemma {:induction false} FastPathIsUnobservable(program: Expr, input: seq<byte>, w: World)
    requires Plain(program)
    ensures Halts(FastPath, Start(program, input), w) <==> Halts(Textbook, Start(program, input), w)
    ensures Shows(FastPath, Start(program, input), w) <==> Shows(Textbook, Start(program, input), w)
  {
    PlainErasesToItself(program);
    assert Erase(Start(program, input)) == Start(program, input);
    HaltsTransfer(Start(program, input), w);
    ShowsTransfer(Start(program, input), w);
  }
}
