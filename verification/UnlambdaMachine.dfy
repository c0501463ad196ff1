/**
 The evaluator of scripts/unlambda.py: values, expressions, continuation frames
 and the transitions of its CPS machine.  `Rule` selects how `s` with three
 arguments is treated: `FastPath` is the interpreter's own S2 frame, `Textbook`
 evaluates the expression ``xz`yz with ordinary argument frames only.
 */
module UnlambdaMachine {
  import opened Common

  datatype Value =
    | K | K1(held: Value) | S | S1(x: Value) | S2(x: Value, y: Value)
    | I | V | D | D1(promise: Expr) | C | Cont(saved: Kont) | E
    | Dot(b: byte) | Read | Cmp(b: byte) | Pipe

  datatype Expr = App(rator: Expr, rand: Expr) | Val(value: Value)

  datatype Kont =
    | Empty
    | Arg(operand: Expr, next: Kont)
    | ApplyTo(operator: Value, next: Kont)
    | ApplyWith(argument: Value, next: Kont)
    | S2Frame(y: Value, z: Value, next: Kont)

  /** What the outside world can see, in order: bytes written and bytes read. */
  datatype Event = Wrote(b: byte) | Took(b: byte) | SawEnd

  datatype World = World(input: seq<byte>, pos: nat, current: Option<byte>, trace: seq<Event>)

  datatype Control =
    | Eval(e: Expr, k: Kont)
    | Return(v: Value, k: Kont)
    | Apply(f: Value, x: Value, k: Kont)
    | Stopped

  datatype State = State(c: Control, w: World)

  datatype Rule = FastPath | Textbook

  function ReadByte(w: World): World {
    if w.pos < |w.input| then
      w.(pos := w.pos + 1, current := Some(w.input[w.pos]), trace := w.trace + [Took(w.input[w.pos])])
    else
      w.(current := None, trace := w.trace + [SawEnd])
  }

  function ReturnStep(v: Value, k: Kont): Control {
    match k
    case Empty => Stopped
    case Arg(e, next) => if v.D? then Return(D1(e), next) else Eval(e, ApplyTo(v, next))
    case ApplyTo(f, next) => Apply(f, v, next)
    case ApplyWith(x, next) => Apply(v, x, next)
    case S2Frame(y, z, next) =>
      if v.D? then Return(D1(App(Val(y), Val(z))), next) else Apply(y, z, ApplyTo(v, next))
  }

  function ApplyStep(rule: Rule, f: Value, x: Value, k: Kont, w: World): State {
    match f
    case I => State(Return(x, k), w)
    case K1(v) => State(Return(v, k), w)
    case S2(a, b) =>
      State(if rule.FastPath? then Apply(a, x, S2Frame(b, x, k))
            else Eval(App(App(Val(a), Val(x)), App(Val(b), Val(x))), k), w)
    case S1(a) => State(Return(S2(a, x), k), w)
    case K => State(Return(K1(x), k), w)
    case S => State(Return(S1(x), k), w)
    case Dot(b) => State(Return(x, k), w.(trace := w.trace + [Wrote(b)]))
    case V => State(Return(V, k), w)
    case D1(e) => State(Eval(e, ApplyWith(x, k)), w)
    case D => State(Return(D1(Val(x)), k), w)
    case C => State(Apply(x, Cont(k), k), w)
    case Cont(saved) => State(Return(x, saved), w)
    case E => State(Stopped, w)
    case Read =>
      var w' := ReadByte(w);
      State(Apply(x, if w'.current.Some? then I else V, k), w')
    case Cmp(b) => State(Apply(x, if w.current == Some(b) then I else V, k), w)
    case Pipe => State(Apply(x, if w.current.Some? then Dot(w.current.value) else V, k), w)
  }

  function Step(rule: Rule, s: State): State {
    match s.c
    case Eval(App(f, x), k) => s.(c := Eval(f, Arg(x, k)))
    case Eval(Val(v), k) => s.(c := Return(v, k))
    case Return(v, k) => s.(c := ReturnStep(v, k))
    case Apply(f, x, k) => ApplyStep(rule, f, x, k, s.w)
    case Stopped => s
  }

  function Steps(rule: Rule, n: nat, s: State): State {
    if n == 0 then s else Steps(rule, n - 1, Step(rule, s))
  }

  function Start(program: Expr, input: seq<byte>): State {
    State(Eval(program, Empty), World(input, 0, None, []))
  }

  lemma {:induction false} StepsAdd(rule: Rule, m: nat, n: nat, s: State)
    ensures Steps(rule, m + n, s) == Steps(rule, n, Steps(rule, m, s))
  {
    if m > 0 {
      StepsAdd(rule, m - 1, n, Step(rule, s));
    }
  }

  lemma {:induction false} StaysStopped(rule: Rule, n: nat, s: State)
    requires s.c.Stopped?
    ensures Steps(rule, n, s) == s
  {
    if n > 0 {
      StaysStopped(rule, n - 1, s);
    }
  }

  function WroteAll(out: seq<byte>): seq<Event> {
    seq(|out|, i requires 0 <= i < |out| => Wrote(out[i]))
  }

  const OUTPUT_CHUNK := 8192

  /** The loop variables represent machine state `now`, from which `left` more steps lead to `goal`. */
  ghost predicate Tracks(goal: State, left: nat, now: State, c: Control,
                         input: seq<byte>, pos: nat, current: Option<byte>, log: seq<Event>, out: seq<byte>)
  {
    && goal == Steps(FastPath, left, now)
    && now.c == c
    && now.w == World(input, pos, current, log + WroteAll(out))
  }

  /**
   The interpreter's loop nest, stopped after `fuel` machine transitions.  `log`
   is what reaches the outside: a buffered byte is logged only when the buffer
   is flushed, yet the log always equals the unbuffered trace of the machine.
   */
  method Run(program: Expr, input: seq<byte>, fuel: nat) returns (halted: bool, log: seq<Event>)
    ensures halted <==> Steps(FastPath, fuel, Start(program, input)).c.Stopped?
    ensures log == Steps(FastPath, fuel, Start(program, input)).w.trace
  {
    var out: seq<byte> := [];
    var current: Option<byte> := None;
    var pos: nat := 0;
    var expr, k := program, Empty;
    var left := fuel;
    halted, log := false, [];
    ghost var now := Start(program, input);
    ghost var goal := Steps(FastPath, fuel, now);
    assert log + WroteAll(out) == [];
    label running: while left > 0
      invariant !halted && Tracks(goal, left, now, Eval(expr, k), input, pos, current, log, out)
      decreases left, 3
    {
      while left > 0 && expr.App?
        invariant Tracks(goal, left, now, Eval(expr, k), input, pos, current, log, out)
        decreases left
      {
        now, left := Step(FastPath, now), left - 1;
        k, expr := Arg(expr.rand, k), expr.rator;
      }
      if left == 0 { assert Steps(FastPath, left, now) == now; break running; }
      now, left := Step(FastPath, now), left - 1;
      var value := expr.value;

      label returning: while left > 0
        invariant !halted && Tracks(goal, left, now, Return(value, k), input, pos, current, log, out)
        decreases left
      {
        now, left := Step(FastPath, now), left - 1;
        var f, x: Value;
        match k {
          case Empty =>
            halted := true;
            StaysStopped(FastPath, left, now);
            break running;
          case Arg(e, next) =>
            if value.D? {
              value, k := D1(e), next;
              continue returning;
            }
            expr, k := e, ApplyTo(value, next);
            break returning;
          case ApplyTo(g, next) =>
            f, x, k := g, value, next;
          case ApplyWith(a, next) =>
            f, x, k := value, a, next;
          case S2Frame(y, z, next) =>
            if value.D? {
              value, k := D1(App(Val(y), Val(z))), next;
              continue returning;
            }
            f, x, k := y, z, ApplyTo(value, next);
        }

        label applying: while left > 0
          invariant !halted && Tracks(goal, left, now, Apply(f, x, k), input, pos, current, log, out)
          decreases left
        {
          now, left := Step(FastPath, now), left - 1;
          match f {
            case I => value := x;
            case K1(v) => value := v;
            case S2(a, b) =>
              k, f := S2Frame(b, x, k), a;
              continue applying;
            case S1(a) => value := S2(a, x);
            case K => value := K1(x);
            case S => value := S1(x);
            case Dot(b) =>
              assert log + WroteAll(out + [b]) == log + WroteAll(out) + [Wrote(b)];
              out := out + [b];
              if |out| >= OUTPUT_CHUNK {
                log, out := Flush(log, out);
              }
              value := x;
            case V => value := V;
            case D1(e) =>
              k, expr := ApplyWith(x, k), e;
              break returning;
            case D => value := D1(Val(x));
            case C =>
              f, x := x, Cont(k);
              continue applying;
            case Cont(saved) => k, value := saved, x;
            case E =>
              halted := true;
              StaysStopped(FastPath, left, now);
              break running;
            case Read =>
              log, out := Flush(log, out);
              f := x;
              if pos < |input| {
                log := log + [Took(input[pos])];
                current, x, pos := Some(input[pos]), I, pos + 1;
              } else {
                log := log + [SawEnd];
                current, x := None, V;
              }
              assert log + WroteAll(out) == log;
              continue applying;
            case Cmp(b) =>
              f, x := x, if current == Some(b) then I else V;
              continue applying;
            case Pipe =>
              f, x := x, if current.Some? then Dot(current.value) else V;
              continue applying;
          }
          break applying;
        }
        if left == 0 { assert Steps(FastPath, left, now) == now; break running; }
      }
      if left == 0 { assert Steps(FastPath, left, now) == now; break running; }
    }
    log, out := Flush(log, out);
  }

  /** Writes the whole buffer to the stream and empties it. */
  method Flush(log: seq<Event>, out: seq<byte>) returns (log': seq<Event>, out': seq<byte>)
    ensures log' == log + WroteAll(out) && out' == []
    ensures log' + WroteAll(out') == log'
  {
    log', out' := log + WroteAll(out), [];
  }
}
