/**
 The emitter of cmd/selftest/brainfuck_fixture.go: a string builder with a
 compile-time tape position.  The text it emits is that of `ADDER`, and the
 tracked position is the run-time pointer wherever execution can be.
 */
module BrainfuckGenerator {
  import opened Common
  import opened Decimals
  import opened Brainfuck
  import M = BrainfuckMacros
  import A = BrainfuckAdder

  // Pointer displacement of texts and structured programs.

  function Net(program: string, i: nat): int
    requires i <= |program|
  {
    if i == 0 then 0
    else Net(program, i - 1) + (if program[i - 1] == '>' then 1 else if program[i - 1] == '<' then -1 else 0)
  }

  function Shift(p: Prog): int {
    match p
    case End => 0
    case Prim(op, rest) => OpShift(op) + Shift(rest)
    case Loop(body, rest) => Shift(body) + Shift(rest)
  }

  /** Every loop body returns to the cell it started at. */
  predicate Neutral(p: Prog) {
    match p
    case End => true
    case Prim(_, rest) => Neutral(rest)
    case Loop(body, rest) => Neutral(body) && Shift(body) == 0 && Neutral(rest)
  }

  predicate Goes(p: Prog, d: int) {
    Neutral(p) && Shift(p) == d
  }

  lemma {:induction false} FlatAppend(p: Prog, q: Prog)
    ensures Flat(M.Append(p, q)) == Flat(p) + Flat(q)
  {
    match p
    case End =>
      assert Flat(q) == "" + Flat(q);
    case Prim(op, rest) =>
      FlatAppend(rest, q);
      Regroup([Symbol(op)], Flat(rest), Flat(q));
    case Loop(body, rest) =>
      FlatAppend(rest, q);
      Regroup("[" + Flat(body) + "]", Flat(rest), Flat(q));
  }

  lemma {:induction false} GoesAppend(p: Prog, q: Prog)
    ensures Shift(M.Append(p, q)) == Shift(p) + Shift(q)
    ensures Neutral(M.Append(p, q)) <==> Neutral(p) && Neutral(q)
  {
    match p
    case End =>
    case Prim(op, rest) => GoesAppend(rest, q);
    case Loop(body, rest) => GoesAppend(rest, q);
  }

  lemma {:induction false} GoesThen(p: Prog, q: Prog, d: int, e: int)
    requires Goes(p, d) && Goes(q, e)
    ensures Goes(M.Append(p, q), d + e)
  {
    GoesAppend(p, q);
  }

  lemma {:induction false} RepeatText(op: Op, n: nat)
    ensures Flat(M.Repeat(op, n)) == seq(n, i => Symbol(op))
  {
    if n > 0 {
      RepeatText(op, n - 1);
      assert [Symbol(op)] + seq(n - 1, i => Symbol(op)) == seq(n, i => Symbol(op));
    }
  }

  function OpShift(op: Op): int {
    if op.Right? then 1 else if op.Left? then -1 else 0
  }

  lemma {:induction false} RepeatGoes(op: Op, n: nat)
    ensures Goes(M.Repeat(op, n), OpShift(op) * n)
  {
    if n > 0 {
      RepeatGoes(op, n - 1);
    }
  }

  lemma {:induction false} MoveGoes(p: int, cell: int)
    ensures Goes(M.Move(p, cell), cell - p)
  {
    if cell > p { RepeatGoes(Right, cell - p); } else { RepeatGoes(Left, p - cell); }
  }

  lemma {:induction false} AddGoes(p: int, cell: int, amount: int)
    ensures Goes(M.Add(p, cell, amount), cell - p)
  {
    MoveGoes(p, cell);
    if amount > 0 { RepeatGoes(Plus, amount); } else { RepeatGoes(Minus, -amount); }
    GoesThen(M.Move(p, cell), if amount > 0 then M.Repeat(Plus, amount) else M.Repeat(Minus, -amount), cell - p, 0);
  }

  lemma {:induction false} ClearGoes(p: int, cell: int)
    ensures Goes(M.Clear(p, cell), cell - p)
  {
    MoveGoes(p, cell);
    GoesThen(M.Move(p, cell), M.While(Prim(Minus, End)), cell - p, 0);
  }

  lemma {:induction false} CopyCellGoes(p: int, cell: int)
    ensures Goes(M.CopyCell(p, cell), M.BACKUP - p)
  {
    AddGoes(cell, M.COPY, 1);
    AddGoes(M.COPY, M.BACKUP, 1);
    MoveGoes(M.BACKUP, cell);
    GoesThen(M.Add(M.COPY, M.BACKUP, 1), M.Move(M.BACKUP, cell), M.BACKUP - M.COPY, cell - M.BACKUP);
    GoesThen(M.Add(cell, M.COPY, 1), M.Append(M.Add(M.COPY, M.BACKUP, 1), M.Move(M.BACKUP, cell)), M.COPY - cell,
      cell - M.COPY);
    AddGoes(M.BACKUP, cell, 1);
    MoveGoes(cell, M.BACKUP);
    GoesThen(M.Add(M.BACKUP, cell, 1), M.Move(cell, M.BACKUP), cell - M.BACKUP, M.BACKUP - cell);
    MoveGoes(p, cell);
    GoesThen(M.Move(cell, M.BACKUP), M.While(M.Restore(cell)), M.BACKUP - cell, 0);
    GoesThen(M.While(M.Drain(cell)), M.Append(M.Move(cell, M.BACKUP), M.While(M.Restore(cell))), 0, M.BACKUP - cell);
    GoesThen(M.Move(p, cell),
      M.Append(M.While(M.Drain(cell)), M.Append(M.Move(cell, M.BACKUP), M.While(M.Restore(cell)))),
             cell - p, M.BACKUP - cell);
  }

  lemma {:induction false} TestGoes(p: int, cell: int)
    ensures Goes(M.Test(p, cell), M.ZERO_FLAG - p)
  {
    ClearGoes(M.COPY, M.COPY);
    ClearGoes(M.COPY, M.ZERO_FLAG);
    MoveGoes(M.ZERO_FLAG, M.COPY);
    GoesThen(M.Clear(M.COPY, M.ZERO_FLAG), M.Move(M.ZERO_FLAG, M.COPY), 2, -2);
    GoesThen(M.Clear(M.COPY, M.COPY), M.Append(M.Clear(M.COPY, M.ZERO_FLAG), M.Move(M.ZERO_FLAG, M.COPY)), 0, 0);
    AddGoes(p, M.ZERO_FLAG, 1);
    CopyCellGoes(M.ZERO_FLAG, cell);
    MoveGoes(M.BACKUP, M.COPY);
    MoveGoes(M.COPY, M.ZERO_FLAG);
    GoesThen(M.While(M.DROP_FLAG), M.Move(M.COPY, M.ZERO_FLAG), 0, 2);
    GoesThen(M.Move(M.BACKUP, M.COPY), M.Append(M.While(M.DROP_FLAG), M.Move(M.COPY, M.ZERO_FLAG)), -1, 2);
    GoesThen(M.CopyCell(M.ZERO_FLAG, cell),
      M.Append(M.Move(M.BACKUP, M.COPY), M.Append(M.While(M.DROP_FLAG), M.Move(M.COPY, M.ZERO_FLAG))), -1, 1);
    GoesThen(M.Add(p, M.ZERO_FLAG, 1),
             M.Append(M.CopyCell(M.ZERO_FLAG, cell),
               M.Append(M.Move(M.BACKUP, M.COPY), M.Append(M.While(M.DROP_FLAG), M.Move(M.COPY, M.ZERO_FLAG)))),
             M.ZERO_FLAG - p, 0);
  }

  lemma {:induction false} IfZeroGoes(p: int, cell: int, body: Prog, q: int)
    requires Goes(body, q - M.ZERO_FLAG)
    ensures Goes(M.IfZero(p, cell, body, q), M.ZERO_FLAG - p)
  {
    TestGoes(p, cell);
    MoveGoes(q, M.ZERO_FLAG);
    GoesThen(body, M.Move(q, M.ZERO_FLAG), q - M.ZERO_FLAG, M.ZERO_FLAG - q);
    GoesThen(M.Test(p, cell), M.While(Prim(Minus, M.Append(body, M.Move(q, M.ZERO_FLAG)))), M.ZERO_FLAG - p, 0);
  }

  lemma {:induction false} ReadDigitGoes(p: int, weight: int)
    ensures Goes(M.ReadDigit(p, weight), M.INPUT - p)
  {
    MoveGoes(p, M.INPUT);
    AddGoes(M.INPUT, M.INPUT, -48);
    AddGoes(M.INPUT, M.SUM, weight);
    MoveGoes(M.SUM, M.INPUT);
    var weigh := Prim(Minus, M.Append(M.Add(M.INPUT, M.SUM, weight), M.Move(M.SUM, M.INPUT)));
    GoesThen(M.Add(M.INPUT, M.SUM, weight), M.Move(M.SUM, M.INPUT), -1, 1);
    GoesThen(M.Add(M.INPUT, M.INPUT, -48), M.While(weigh), 0, 0);
    GoesThen(M.Move(p, M.INPUT), Prim(Input, M.Append(M.Add(M.INPUT, M.INPUT, -48), M.While(weigh))), M.INPUT - p, 0);
  }

  lemma {:induction false} CarryGoes()
    ensures Goes(A.CARRY_TEN, 0) && Goes(A.CARRY_HUNDRED, M.HUNDREDS - M.ZERO_FLAG)
  {
    ClearGoes(M.ZERO_FLAG, M.TENS);
    AddGoes(M.TENS, M.TENS_COUNTDOWN, 10);
    AddGoes(M.TENS_COUNTDOWN, M.HUNDREDS, 1);
    GoesThen(M.Add(M.TENS, M.TENS_COUNTDOWN, 10), M.Add(M.TENS_COUNTDOWN, M.HUNDREDS, 1), 7, -6);
    GoesThen(M.Clear(M.ZERO_FLAG, M.TENS),
      M.Append(M.Add(M.TENS, M.TENS_COUNTDOWN, 10), M.Add(M.TENS_COUNTDOWN, M.HUNDREDS, 1)), -5, 1);
    ClearGoes(M.ZERO_FLAG, M.UNITS);
    AddGoes(M.UNITS, M.UNIT_COUNTDOWN, 10);
    AddGoes(M.UNIT_COUNTDOWN, M.TENS, 1);
    AddGoes(M.TENS, M.TENS_COUNTDOWN, -1);
    var t3 := M.Append(M.Add(M.UNIT_COUNTDOWN, M.TENS, 1), M.Add(M.TENS, M.TENS_COUNTDOWN, -1));
    GoesThen(M.Add(M.UNIT_COUNTDOWN, M.TENS, 1), M.Add(M.TENS, M.TENS_COUNTDOWN, -1), -2, 7);
    GoesThen(M.Add(M.UNITS, M.UNIT_COUNTDOWN, 10), t3, 3, 5);
    GoesThen(M.Clear(M.ZERO_FLAG, M.UNITS), M.Append(M.Add(M.UNITS, M.UNIT_COUNTDOWN, 10), t3), -6, 8);
    IfZeroGoes(M.TENS_COUNTDOWN, M.TENS_COUNTDOWN, A.CARRY_HUNDRED, M.HUNDREDS);
    GoesThen(A.TICK_TENS, M.IfZero(M.TENS_COUNTDOWN, M.TENS_COUNTDOWN, A.CARRY_HUNDRED, M.HUNDREDS), 2, -2);
  }

  lemma {:induction false} CountGoes()
    ensures Goes(A.COUNT, 0)
  {
    CarryGoes();
    AddGoes(M.SUM, M.UNITS, 1);
    AddGoes(M.UNITS, M.UNIT_COUNTDOWN, -1);
    GoesThen(M.Add(M.SUM, M.UNITS, 1), M.Add(M.UNITS, M.UNIT_COUNTDOWN, -1), 3, 3);
    var test := M.IfZero(M.UNIT_COUNTDOWN, M.UNIT_COUNTDOWN, A.CARRY_TEN, M.ZERO_FLAG);
    IfZeroGoes(M.UNIT_COUNTDOWN, M.UNIT_COUNTDOWN, A.CARRY_TEN, M.ZERO_FLAG);
    MoveGoes(M.ZERO_FLAG, M.SUM);
    GoesThen(test, M.Move(M.ZERO_FLAG, M.SUM), 3, -9);
    GoesThen(A.TICK_UNITS, M.Append(test, M.Move(M.ZERO_FLAG, M.SUM)), 6, -6);
  }

  lemma {:induction false} ReadGoes()
    ensures Goes(A.READ, M.INPUT)
  {
    ReadDigitGoes(M.SUM, 10);
    ReadDigitGoes(M.INPUT, 1);
    ReadDigitGoes(M.INPUT, 10);
    var last := M.Append(M.ReadDigit(M.INPUT, 10), M.ReadDigit(M.INPUT, 1));
    GoesThen(M.ReadDigit(M.INPUT, 10), M.ReadDigit(M.INPUT, 1), 0, 0);
    GoesThen(M.ReadDigit(M.INPUT, 1), Prim(Input, last), 0, 0);
    GoesThen(M.ReadDigit(M.SUM, 10), M.Append(M.ReadDigit(M.INPUT, 1), Prim(Input, last)), 1, 0);
  }

  lemma {:induction false} PrepareGoes()
    ensures Goes(A.PREPARE, M.SUM - M.INPUT)
  {
    AddGoes(M.INPUT, M.UNIT_COUNTDOWN, 10);
    AddGoes(M.UNIT_COUNTDOWN, M.TENS_COUNTDOWN, 10);
    MoveGoes(M.TENS_COUNTDOWN, M.SUM);
    var rest := M.Append(M.Add(M.UNIT_COUNTDOWN, M.TENS_COUNTDOWN, 10), M.Move(M.TENS_COUNTDOWN, M.SUM));
    GoesThen(M.Add(M.UNIT_COUNTDOWN, M.TENS_COUNTDOWN, 10), M.Move(M.TENS_COUNTDOWN, M.SUM), 5, -11);
    GoesThen(M.Add(M.INPUT, M.UNIT_COUNTDOWN, 10), rest, 5, -6);
  }

  lemma {:induction false} ShowGoes()
    ensures Goes(A.SHOW_HUNDREDS, 0) && Goes(A.SHOW_TENS, 0) && Goes(A.SHOW_UNITS, M.INPUT - M.PRINT_TENS)
  {
    AddGoes(M.HUNDREDS, M.HUNDREDS, 48);
    ClearGoes(M.HUNDREDS, M.HUNDREDS);
    AddGoes(M.HUNDREDS, M.PRINT_TENS, 1);
    MoveGoes(M.PRINT_TENS, M.HUNDREDS);
    var h3 := M.Append(M.Add(M.HUNDREDS, M.PRINT_TENS, 1), M.Move(M.PRINT_TENS, M.HUNDREDS));
    GoesThen(M.Add(M.HUNDREDS, M.PRINT_TENS, 1), M.Move(M.PRINT_TENS, M.HUNDREDS), 5, -5);
    GoesThen(M.Clear(M.HUNDREDS, M.HUNDREDS), h3, 0, 0);
    GoesThen(M.EMIT, M.Append(M.Clear(M.HUNDREDS, M.HUNDREDS), h3), 0, 0);
    GoesThen(M.Add(M.HUNDREDS, M.HUNDREDS, 48), M.Append(M.EMIT, M.Append(M.Clear(M.HUNDREDS, M.HUNDREDS), h3)), 0, 0);
    AddGoes(M.PRINT_TENS, M.TENS, 48);
    MoveGoes(M.TENS, M.PRINT_TENS);
    GoesThen(M.EMIT, M.Move(M.TENS, M.PRINT_TENS), 0, 6);
    GoesThen(M.Add(M.PRINT_TENS, M.TENS, 48), M.Append(M.EMIT, M.Move(M.TENS, M.PRINT_TENS)), -6, 6);
    AddGoes(M.PRINT_TENS, M.UNITS, 48);
    ClearGoes(M.UNITS, M.INPUT);
    AddGoes(M.INPUT, M.INPUT, 10);
    GoesThen(M.Add(M.INPUT, M.INPUT, 10), M.EMIT, 0, 0);
    var u3 := M.Append(M.Add(M.INPUT, M.INPUT, 10), M.EMIT);
    GoesThen(M.Clear(M.UNITS, M.INPUT), u3, -2, 0);
    GoesThen(M.EMIT, M.Append(M.Clear(M.UNITS, M.INPUT), u3), 0, -2);
    GoesThen(M.Add(M.PRINT_TENS, M.UNITS, 48), M.Append(M.EMIT, M.Append(M.Clear(M.UNITS, M.INPUT), u3)), -7, -2);
  }

  lemma {:induction false} DecideGoes()
    ensures Goes(A.DECIDE_TENS, M.PRINT_TENS - M.HUNDREDS)
  {
    ClearGoes(M.COPY, M.COPY);
    ClearGoes(M.COPY, M.PRINT_TENS);
    AddGoes(M.PRINT_TENS, M.PRINT_TENS, 1);
    MoveGoes(M.PRINT_TENS, M.COPY);
    var n3 := M.Append(M.Add(M.PRINT_TENS, M.PRINT_TENS, 1), M.Move(M.PRINT_TENS, M.COPY));
    GoesThen(M.Add(M.PRINT_TENS, M.PRINT_TENS, 1), M.Move(M.PRINT_TENS, M.COPY), 0, -3);
    GoesThen(M.Clear(M.COPY, M.PRINT_TENS), n3, 3, -3);
    GoesThen(M.Clear(M.COPY, M.COPY), M.Append(M.Clear(M.COPY, M.PRINT_TENS), n3), 0, 0);
    CopyCellGoes(M.HUNDREDS, M.TENS);
    MoveGoes(M.BACKUP, M.COPY);
    MoveGoes(M.COPY, M.PRINT_TENS);
    var d3 := M.Append(M.While(A.NEED_TENS), M.Move(M.COPY, M.PRINT_TENS));
    GoesThen(M.While(A.NEED_TENS), M.Move(M.COPY, M.PRINT_TENS), 0, 3);
    GoesThen(M.Move(M.BACKUP, M.COPY), d3, -1, 3);
    GoesThen(M.CopyCell(M.HUNDREDS, M.TENS), M.Append(M.Move(M.BACKUP, M.COPY), d3), 3, 2);
  }

  lemma {:induction false} AdderIsNeutral()
    ensures Neutral(A.ADDER)
  {
    ReadGoes();
    PrepareGoes();
    CountGoes();
    ShowGoes();
    DecideGoes();
    MoveGoes(M.SUM, M.HUNDREDS);
    GoesAppend(M.While(A.SHOW_TENS), A.SHOW_UNITS);
    GoesAppend(A.DECIDE_TENS, M.Append(M.While(A.SHOW_TENS), A.SHOW_UNITS));
    GoesAppend(M.While(A.SHOW_HUNDREDS), M.Append(A.DECIDE_TENS, M.Append(M.While(A.SHOW_TENS), A.SHOW_UNITS)));
    GoesAppend(M.Move(M.SUM, M.HUNDREDS),
               M.Append(M.While(A.SHOW_HUNDREDS),
                 M.Append(A.DECIDE_TENS, M.Append(M.While(A.SHOW_TENS), A.SHOW_UNITS))));
    GoesAppend(M.While(A.COUNT), A.PRINT);
    GoesAppend(A.PREPARE, M.Append(M.While(A.COUNT), A.PRINT));
    GoesAppend(A.READ, M.Append(A.PREPARE, M.Append(M.While(A.COUNT), A.PRINT)));
  }

  // The run-time pointer.

  lemma {:induction false} NetStep(program: string, i: nat)
    requires i < |program|
    ensures Net(program, i + 1) ==
      Net(program, i) + (if program[i] == '>' then 1 else if program[i] == '<' then -1 else 0)
  {
  }

  lemma {:induction false} NetAcross(p: Prog, program: string, off: nat)
    requires Laid(p, program, off)
    ensures off + Size(p) <= |program| && Net(program, off + Size(p)) == Net(program, off) + Shift(p)
    decreases p
  {
    match p
    case End =>
    case Prim(op, rest) =>
      NetStep(program, off);
      NetAcross(rest, program, off + 1);
    case Loop(body, rest) =>
      var close := off + 1 + Size(body);
      NetAcross(body, program, off + 1);
      NetAcross(rest, program, close + 1);
      NetOfBrackets(program, off, close);
      assert off + Size(p) == close + 1 + Size(rest);
  }

  lemma {:induction false} PlacedIsLaid(p: Prog, program: string, jump: map<nat, nat>, off: nat)
    requires Placed(p, program, jump, off)
    ensures Laid(p, program, off)
    decreases p
  {
    match p
    case End =>
    case Prim(op, rest) => PlacedIsLaid(rest, program, jump, off + 1);
    case Loop(body, rest) =>
      PlacedIsLaid(body, program, jump, off + 1);
      PlacedIsLaid(rest, program, jump, off + 2 + Size(body));
  }

  /** The bracket at `i` leads to a bracket at the same displacement. */
  predicate LevelBracket(program: string, jump: map<nat, nat>, i: nat) {
    && i in jump && i < |program| && jump[i] < |program|
    && IsBracket(program[jump[i]]) && Net(program, jump[i]) == Net(program, i)
  }

  lemma {:induction false} NetOfBrackets(program: string, l: nat, r: nat)
    requires l < |program| && r < |program| && program[l] == '[' && program[r] == ']'
    ensures Net(program, l + 1) == Net(program, l) && Net(program, r + 1) == Net(program, r)
  {
    NetStep(program, l);
    NetStep(program, r);
  }

  /** `i` is one of the two brackets of the loop around `body` that opens at `l`. */
  ghost predicate Delimits(program: string, jump: map<nat, nat>, body: Prog, l: nat, i: nat) {
    var close := l + 1 + Size(body);
    && close < |program| && program[l] == '[' && program[close] == ']'
    && l in jump && close in jump && jump[l] == close && jump[close] == l
    && Placed(body, program, jump, l + 1) && Shift(body) == 0
    && (i == l || i == close)
  }

  lemma {:induction false} BracketDelimits(p: Prog, program: string, jump: map<nat, nat>, off: nat, i: nat)
    returns (body: Prog, l: nat)
    requires Placed(p, program, jump, off) && Neutral(p)
    requires off <= i < off + Size(p) && i < |program| && IsBracket(program[i])
    ensures Delimits(program, jump, body, l, i)
    decreases p
  {
    if p.Prim? {
      body, l := BracketDelimits(p.rest, program, jump, off + 1, i);
    } else if off < i < CloseOf(p, off) {
      body, l := BracketDelimits(p.body, program, jump, off + 1, i);
    } else if CloseOf(p, off) < i {
      body, l := BracketDelimits(p.rest, program, jump, CloseOf(p, off) + 1, i);
    } else {
      body, l := p.body, off;
      OwnBrackets(p, program, jump, off, i);
    }
  }

  lemma {:induction false} OwnBrackets(p: Prog, program: string, jump: map<nat, nat>, off: nat, i: nat)
    requires p.Loop? && Placed(p, program, jump, off) && Shift(p.body) == 0 && (i == off || i == CloseOf(p, off))
    ensures Delimits(program, jump, p.body, off, i)
  {
  }

  lemma {:induction false} BracketIsLevel(p: Prog, program: string, jump: map<nat, nat>, i: nat)
    requires Placed(p, program, jump, 0) && Neutral(p)
    requires i < Size(p) && i < |program| && IsBracket(program[i])
    ensures LevelBracket(program, jump, i)
  {
    var body, l := BracketDelimits(p, program, jump, 0, i);
    DelimitedIsLevel(program, jump, body, l);
  }

  lemma {:induction false} DelimitedIsLevel(program: string, jump: map<nat, nat>, body: Prog, l: nat)
    requires Delimits(program, jump, body, l, l)
    ensures LevelBracket(program, jump, l) && LevelBracket(program, jump, l + 1 + Size(body))
  {
    NetStep(program, l);
    PlacedIsLaid(body, program, jump, l + 1);
    NetAcross(body, program, l + 1);
  }

  /** Wherever execution of a neutral program can be, the pointer is the displacement of the text before it. */
  lemma {:induction false} PointerIsNet(p: Prog, program: string, jump: map<nat, nat>, m: Machine, n: nat)
    requires Placed(p, program, jump, 0) && Neutral(p) && Size(p) == |program|
    requires m.pc <= |program| && m.c.ptr == Net(program, m.pc)
    ensures var m' := Steps(program, jump, n, m); m'.pc <= |program| && m'.c.ptr == Net(program, m'.pc)
    decreases n
  {
    if n > 0 {
      if m.pc < |program| && IsBracket(program[m.pc]) {
        BracketIsLevel(p, program, jump, m.pc);
      }
      StepKeepsNet(program, jump, m);
      PointerIsNet(p, program, jump, Step(program, jump, m), n - 1);
    }
  }

  lemma {:induction false} StepKeepsNet(program: string, jump: map<nat, nat>, m: Machine)
    requires m.pc <= |program| && m.c.ptr == Net(program, m.pc)
    requires m.pc < |program| && IsBracket(program[m.pc]) ==> LevelBracket(program, jump, m.pc)
    ensures var m' := Step(program, jump, m); m'.pc <= |program| && m'.c.ptr == Net(program, m'.pc)
  {
    if m.pc < |program| {
      NetStep(program, m.pc);
      if IsBracket(program[m.pc]) {
        NetStep(program, jump[m.pc]);
      }
    }
  }

  // The emitter.

  /** Text that does not move the pointer. */
  predicate Still(text: string) {
    forall i :: 0 <= i < |text| ==> text[i] != '<' && text[i] != '>'
  }

  lemma {:induction false} NetAppend(program: string, more: string)
    requires Still(more)
    ensures Net(program + more, |program + more|) == Net(program, |program|)
    decreases |more|
  {
    if more == "" {
      assert program + more == program;
    } else {
      var shorter := more[..|more| - 1];
      NetAppend(program, shorter);
      NetPrefix(program + shorter, [more[|more| - 1]], |program + shorter|);
      assert program + more == program + shorter + [more[|more| - 1]];
      NetStep(program + more, |program + shorter|);
    }
  }

  lemma {:induction false} NetPrefix(program: string, more: string, i: nat)
    requires i <= |program|
    ensures Net(program + more, i) == Net(program, i)
  {
    if i > 0 {
      NetPrefix(program, more, i - 1);
    }
  }

  lemma {:induction false} NetAppendFlat(program: string, p: Prog)
    ensures Net(program + Flat(p), |program + Flat(p)|) == Net(program, |program|) + Shift(p)
  {
    var text := program + Flat(p);
    NetPrefix(program, Flat(p), |program|);
    assert TextAt(text, |program|, Flat(p)) by {
      forall i | 0 <= i < |Flat(p)| ensures text[|program| + i] == Flat(p)[i] {}
    }
    TextIsLaid(p, text, |program|);
    NetAcross(p, text, |program|);
  }

  // A partially emitted program: the loops still open, outermost first, and what each holds so far.

  datatype Draft = Whole(p: Prog) | InLoop(outer: Draft, p: Prog)

  function Text(d: Draft): string {
    match d
    case Whole(p) => Flat(p)
    case InLoop(outer, p) => Text(outer) + "[" + Flat(p)
  }

  function Grow(d: Draft, q: Prog): Draft {
    d.(p := M.Append(d.p, q))
  }

  lemma {:induction false} GrowText(d: Draft, q: Prog)
    ensures Text(Grow(d, q)) == Text(d) + Flat(q)
  {
    FlatAppend(d.p, q);
    if d.InLoop? {
      Regroup(Text(d.outer) + "[", Flat(d.p), Flat(q));
    }
  }

  lemma {:induction false} OpenText(d: Draft)
    ensures Text(InLoop(d, End)) == Text(d) + "["
    ensures Text(InLoop(d, Prim(Minus, End))) == Text(d) + "[-"
  {
    Regroup(Text(d), "[", "-");
    assert Flat(Prim(Minus, End)) == "-";
  }

  lemma {:induction false} CloseText(d: Draft)
    requires d.InLoop?
    ensures Text(Grow(d.outer, M.While(d.p))) == Text(d) + "]"
  {
    GrowText(d.outer, M.While(d.p));
    assert Flat(M.While(d.p)) == "[" + Flat(d.p) + "]";
    Regroup("[", Flat(d.p), "]");
    Regroup(Text(d.outer), "[" , Flat(d.p) + "]");
    Regroup(Text(d.outer) + "[", Flat(d.p), "]");
  }

  lemma {:induction false} AppendAssoc(a: Prog, b: Prog, c: Prog)
    ensures M.Append(M.Append(a, b), c) == M.Append(a, M.Append(b, c))
  {
    match a
    case End =>
    case Prim(op, rest) => AppendAssoc(rest, b, c);
    case Loop(body, rest) => AppendAssoc(rest, b, c);
  }

  /** Four appended pieces regrouped to the right. */
  lemma {:induction false} Regroup4(a: Prog, b: Prog, c: Prog, d: Prog)
    ensures M.Append(M.Append(M.Append(a, b), c), d) == M.Append(a, M.Append(b, M.Append(c, d)))
  {
    AppendAssoc(M.Append(a, b), c, d);
    AppendAssoc(a, b, M.Append(c, d));
  }

  lemma {:induction false} Regroup5(a: Prog, b: Prog, c: Prog, d: Prog, e: Prog)
    ensures M.Append(M.Append(M.Append(M.Append(a, b), c), d), e) ==
      M.Append(a, M.Append(b, M.Append(c, M.Append(d, e))))
  {
    Regroup4(M.Append(a, b), c, d, e);
    AppendAssoc(a, b, M.Append(c, M.Append(d, e)));
  }

  const COUNTED := Prim(Minus, End)

  lemma {:induction false} CopyCellGrouped(d: Prog, p: int, cell: int)
    ensures M.Append(M.Append(M.Append(COUNTED, M.Add(cell, M.COPY, 1)), M.Add(M.COPY, M.BACKUP, 1)),
      M.Move(M.BACKUP, cell)) == M.Drain(cell)
    ensures M.Append(M.Append(COUNTED, M.Add(M.BACKUP, cell, 1)), M.Move(cell, M.BACKUP)) == M.Restore(cell)
    ensures M.Append(M.Append(M.Append(M.Append(d, M.Move(p, cell)), M.While(M.Drain(cell))), M.Move(cell, M.BACKUP)),
      M.While(M.Restore(cell)))
         == M.Append(d, M.CopyCell(p, cell))
  {
    Regroup4(COUNTED, M.Add(cell, M.COPY, 1), M.Add(M.COPY, M.BACKUP, 1), M.Move(M.BACKUP, cell));
    AppendAssoc(COUNTED, M.Add(M.BACKUP, cell, 1), M.Move(cell, M.BACKUP));
    Regroup5(d, M.Move(p, cell), M.While(M.Drain(cell)), M.Move(cell, M.BACKUP), M.While(M.Restore(cell)));
  }

  lemma {:induction false} TestGrouped(d: Prog, p: int, cell: int)
    ensures M.Append(M.Append(M.Append(End, M.Clear(M.COPY, M.COPY)), M.Clear(M.COPY, M.ZERO_FLAG)),
      M.Move(M.ZERO_FLAG, M.COPY)) == M.DROP_FLAG
    ensures M.Append(M.Append(M.Append(M.Append(M.Append(d, M.Add(p, M.ZERO_FLAG, 1)), M.CopyCell(M.ZERO_FLAG, cell)),
      M.Move(M.BACKUP, M.COPY)),
              M.While(M.DROP_FLAG)), M.Move(M.COPY, M.ZERO_FLAG))
         == M.Append(d, M.Test(p, cell))
  {
    AppendAssoc(M.Clear(M.COPY, M.COPY), M.Clear(M.COPY, M.ZERO_FLAG), M.Move(M.ZERO_FLAG, M.COPY));
    Regroup5(M.Append(d, M.Add(p, M.ZERO_FLAG, 1)), M.CopyCell(M.ZERO_FLAG, cell), M.Move(M.BACKUP, M.COPY),
      M.While(M.DROP_FLAG), M.Move(M.COPY, M.ZERO_FLAG));
    AppendAssoc(d, M.Add(p, M.ZERO_FLAG, 1),
      M.Append(M.CopyCell(M.ZERO_FLAG, cell),
        M.Append(M.Move(M.BACKUP, M.COPY), M.Append(M.While(M.DROP_FLAG), M.Move(M.COPY, M.ZERO_FLAG)))));
  }

  function Weigh(weight: int): Prog {
    Prim(Minus, M.Append(M.Add(M.INPUT, M.SUM, weight), M.Move(M.SUM, M.INPUT)))
  }

  lemma {:induction false} ReadDigitGrouped(d: Prog, p: int, weight: int)
    ensures M.Append(M.Append(COUNTED, M.Add(M.INPUT, M.SUM, weight)), M.Move(M.SUM, M.INPUT)) == Weigh(weight)
    ensures M.Append(M.Append(M.Append(M.Append(d, M.Move(p, M.INPUT)), Prim(Input, End)),
      M.Add(M.INPUT, M.INPUT, -48)), M.While(Weigh(weight)))
         == M.Append(d, M.ReadDigit(p, weight))
  {
    AppendAssoc(COUNTED, M.Add(M.INPUT, M.SUM, weight), M.Move(M.SUM, M.INPUT));
    Regroup5(d, M.Move(p, M.INPUT), Prim(Input, End), M.Add(M.INPUT, M.INPUT, -48), M.While(Weigh(weight)));
    assert M.Append(Prim(Input, End), M.Append(M.Add(M.INPUT, M.INPUT, -48), M.While(Weigh(weight)))) ==
           Prim(Input, M.Append(M.Add(M.INPUT, M.INPUT, -48), M.While(Weigh(weight))));
  }

  lemma {:induction false} MoveText(p: int, cell: int)
    ensures Flat(M.Move(p, cell)) == if cell > p then seq(cell - p, _ => '>') else seq(p - cell, _ => '<')
  {
    if cell > p { RepeatText(Right, cell - p); } else { RepeatText(Left, p - cell); }
  }

  lemma {:induction false} NetAfterMove(program: string, p: int, cell: int)
    ensures var moved := program + Flat(M.Move(p, cell)); Net(moved, |moved|) == Net(program, |program|) + cell - p
  {
    MoveGoes(p, cell);
    NetAppendFlat(program, M.Move(p, cell));
  }

  class Generator {
    var program: string
    var position: int
    ghost var draft: Draft

    /** The text is that of the draft, and the tracked position is its displacement. */
    ghost predicate Valid()
      reads this
    {
      program == Text(draft) && position == Net(program, |program|)
    }

    constructor ()
      ensures Valid() && draft == Whole(End) && position == 0
    {
      program, position, draft := "", 0, Whole(End);
    }

    method WriteString(text: string, ghost next: Draft)
      requires Valid() && Still(text) && Text(next) == Text(draft) + text
      modifies this
      ensures Valid() && draft == next && position == old(position)
      ensures program == old(program) + text
    {
      NetAppend(program, text);
      program := program + text;
      draft := next;
    }

    method Move(cell: int)
      requires Valid()
      modifies this
      ensures Valid() && draft == Grow(old(draft), M.Move(old(position), cell)) && position == cell
    {
      ghost var move := M.Move(position, cell);
      GrowText(draft, move);
      MoveText(position, cell);
      NetAfterMove(program, position, cell);
      if cell > position {
        program := program + seq(cell - position, _ => '>');
      } else {
        program := program + seq(position - cell, _ => '<');
      }
      position := cell;
      draft := Grow(draft, move);
    }

    method Add(cell: int, amount: int)
      requires Valid()
      modifies this
      ensures Valid() && draft == Grow(old(draft), M.Add(old(position), cell, amount)) && position == cell
    {
      AppendAssoc(draft.p, M.Move(position, cell),
        if amount > 0 then M.Repeat(Plus, amount) else M.Repeat(Minus, -amount));
      Move(cell);
      if amount > 0 {
        RepeatText(Plus, amount);
        GrowText(draft, M.Repeat(Plus, amount));
        WriteString(seq(amount, _ => '+'), Grow(draft, M.Repeat(Plus, amount)));
      } else {
        RepeatText(Minus, -amount);
        GrowText(draft, M.Repeat(Minus, -amount));
        WriteString(seq(-amount, _ => '-'), Grow(draft, M.Repeat(Minus, -amount)));
      }
    }

    method Clear(cell: int)
      requires Valid()
      modifies this
      ensures Valid() && draft == Grow(old(draft), M.Clear(old(position), cell)) && position == cell
    {
      AppendAssoc(draft.p, M.Move(position, cell), M.While(COUNTED));
      Move(cell);
      GrowText(draft, M.While(COUNTED));
      WriteString("[-]", Grow(draft, M.While(COUNTED)));
    }

    method Open()
      requires Valid()
      modifies this
      ensures Valid() && draft == InLoop(old(draft), End) && position == old(position)
    {
      OpenText(draft);
      WriteString("[", InLoop(draft, End));
    }

    method OpenCounted()
      requires Valid()
      modifies this
      ensures Valid() && draft == InLoop(old(draft), Prim(Minus, End)) && position == old(position)
    {
      OpenText(draft);
      WriteString("[-", InLoop(draft, Prim(Minus, End)));
    }

    method Close()
      requires Valid() && draft.InLoop?
      modifies this
      ensures Valid() && draft == Grow(old(draft).outer, M.While(old(draft).p)) && position == old(position)
    {
      CloseText(draft);
      WriteString("]", Grow(draft.outer, M.While(draft.p)));
    }

    method Emit(op: Op)
      requires Valid() && op in {Input, Output}
      modifies this
      ensures Valid() && draft == Grow(old(draft), Prim(op, End)) && position == old(position)
    {
      GrowText(draft, Prim(op, End));
      WriteString([Symbol(op)], Grow(draft, Prim(op, End)));
    }

    method CopyCell(cell: int)
      requires Valid()
      modifies this
      ensures Valid() && draft == Grow(old(draft), M.CopyCell(old(position), cell)) && position == M.BACKUP
    {
      CopyCellGrouped(draft.p, position, cell);
      Move(cell);
      OpenCounted();
      Add(M.COPY, 1);
      Add(M.BACKUP, 1);
      Move(cell);
      Close();
      Move(M.BACKUP);
      OpenCounted();
      Add(cell, 1);
      Move(M.BACKUP);
      Close();
    }

    /** `ifZero` up to its body: the test, and the loop that runs the body once. */
    method BeginIfZero(cell: int)
      requires Valid()
      modifies this
      ensures Valid() && position == M.ZERO_FLAG
      ensures draft == InLoop(Grow(old(draft), M.Test(old(position), cell)), Prim(Minus, End))
    {
      TestGrouped(draft.p, position, cell);
      Add(M.ZERO_FLAG, 1);
      CopyCell(cell);
      Move(M.COPY);
      Open();
      Clear(M.COPY);
      Clear(M.ZERO_FLAG);
      Move(M.COPY);
      Close();
      Move(M.ZERO_FLAG);
      OpenCounted();
    }

    /** `ifZero` after its body. */
    method EndIfZero(ghost p: int, ghost cell: int, ghost outer: Draft, ghost body: Prog)
      requires Valid() && draft == InLoop(Grow(outer, M.Test(p, cell)), Prim(Minus, body))
      modifies this
      ensures Valid() && draft == Grow(outer, M.IfZero(p, cell, body, old(position))) && position == M.ZERO_FLAG
    {
      AppendAssoc(outer.p, M.Test(p, cell), M.While(Prim(Minus, M.Append(body, M.Move(position, M.ZERO_FLAG)))));
      Move(M.ZERO_FLAG);
      Close();
    }

    method ReadDigit(weight: int)
      requires Valid()
      modifies this
      ensures Valid() && draft == Grow(old(draft), M.ReadDigit(old(position), weight)) && position == M.INPUT
    {
      ReadDigitGrouped(draft.p, position, weight);
      Move(M.INPUT);
      Emit(Input);
      Add(M.INPUT, -48);
      OpenCounted();
      Add(M.SUM, weight);
      Move(M.INPUT);
      Close();
    }

    method CarryHundred()
      requires Valid() && position == M.ZERO_FLAG
      modifies this
      ensures Valid() && draft == Grow(old(draft), A.CARRY_HUNDRED) && position == M.HUNDREDS
    {
      Regroup4(draft.p, M.Clear(M.ZERO_FLAG, M.TENS), M.Add(M.TENS, M.TENS_COUNTDOWN, 10),
        M.Add(M.TENS_COUNTDOWN, M.HUNDREDS, 1));
      Clear(M.TENS);
      Add(M.TENS_COUNTDOWN, 10);
      Add(M.HUNDREDS, 1);
    }

    method CarryTen()
      requires Valid() && position == M.ZERO_FLAG
      modifies this
      ensures Valid() && draft == Grow(old(draft), A.CARRY_TEN) && position == M.ZERO_FLAG
    {
      Regroup5(draft.p, M.Clear(M.ZERO_FLAG, M.UNITS), M.Add(M.UNITS, M.UNIT_COUNTDOWN, 10),
        M.Add(M.UNIT_COUNTDOWN, M.TENS, 1), M.Add(M.TENS, M.TENS_COUNTDOWN, -1));
      AppendAssoc(draft.p, A.TICK_TENS, M.IfZero(M.TENS_COUNTDOWN, M.TENS_COUNTDOWN, A.CARRY_HUNDRED, M.HUNDREDS));
      Clear(M.UNITS);
      Add(M.UNIT_COUNTDOWN, 10);
      Add(M.TENS, 1);
      Add(M.TENS_COUNTDOWN, -1);
      ghost var before := draft;
      BeginIfZero(M.TENS_COUNTDOWN);
      CarryHundred();
      EndIfZero(M.TENS_COUNTDOWN, M.TENS_COUNTDOWN, before, A.CARRY_HUNDRED);
    }

    method Read()
      requires Valid() && position == M.SUM && draft == Whole(End)
      modifies this
      ensures Valid() && draft == Whole(A.READ) && position == M.INPUT
    {
      ReadGrouped();
      ReadDigit(10);
      ReadDigit(1);
      Emit(Input);
      ReadDigit(10);
      ReadDigit(1);
    }

    method Count()
      requires Valid() && position == M.INPUT
      modifies this
      ensures Valid() && draft == Grow(old(draft), M.Append(A.PREPARE, M.While(A.COUNT))) && position == M.SUM
    {
      CountGrouped(draft.p);
      Add(M.UNIT_COUNTDOWN, 10);
      Add(M.TENS_COUNTDOWN, 10);
      Move(M.SUM);
      OpenCounted();
      Add(M.UNITS, 1);
      Add(M.UNIT_COUNTDOWN, -1);
      ghost var before := draft;
      BeginIfZero(M.UNIT_COUNTDOWN);
      CarryTen();
      EndIfZero(M.UNIT_COUNTDOWN, M.UNIT_COUNTDOWN, before, A.CARRY_TEN);
      Move(M.SUM);
      Close();
    }

    method Show()
      requires Valid() && position == M.SUM
      modifies this
      ensures Valid() && draft == Grow(old(draft), A.PRINT)
    {
      ShowGrouped(draft.p);
      Move(M.HUNDREDS);
      Open();
      Add(M.HUNDREDS, 48);
      Emit(Output);
      Clear(M.HUNDREDS);
      Add(M.PRINT_TENS, 1);
      Move(M.HUNDREDS);
      Close();
      CopyCell(M.TENS);
      Move(M.COPY);
      Open();
      Clear(M.COPY);
      Clear(M.PRINT_TENS);
      Add(M.PRINT_TENS, 1);
      Move(M.COPY);
      Close();
      Move(M.PRINT_TENS);
      OpenCounted();
      Add(M.TENS, 48);
      Emit(Output);
      Move(M.PRINT_TENS);
      Close();
      Add(M.UNITS, 48);
      Emit(Output);
      Clear(M.INPUT);
      Add(M.INPUT, 10);
      Emit(Output);
    }
  }

  lemma {:induction false} ReadGrouped()
    ensures M.Append(M.Append(M.Append(M.Append(M.Append(End, M.ReadDigit(M.SUM, 10)), M.ReadDigit(M.INPUT, 1)),
      Prim(Input, End)), M.ReadDigit(M.INPUT, 10)), M.ReadDigit(M.INPUT, 1)) == A.READ
  {
    Regroup5(M.ReadDigit(M.SUM, 10), M.ReadDigit(M.INPUT, 1), Prim(Input, End), M.ReadDigit(M.INPUT, 10),
      M.ReadDigit(M.INPUT, 1));
    assert M.Append(Prim(Input, End), M.Append(M.ReadDigit(M.INPUT, 10), M.ReadDigit(M.INPUT, 1)))
        == Prim(Input, M.Append(M.ReadDigit(M.INPUT, 10), M.ReadDigit(M.INPUT, 1)));
  }

  lemma {:induction false} CountGrouped(d: Prog)
    ensures M.Append(M.Append(M.Append(M.Append(d, M.Add(M.INPUT, M.UNIT_COUNTDOWN, 10)),
      M.Add(M.UNIT_COUNTDOWN, M.TENS_COUNTDOWN, 10)), M.Move(M.TENS_COUNTDOWN, M.SUM)), M.While(A.COUNT))
         == M.Append(d, M.Append(A.PREPARE, M.While(A.COUNT)))
    ensures var test := M.IfZero(M.UNIT_COUNTDOWN, M.UNIT_COUNTDOWN, A.CARRY_TEN, M.ZERO_FLAG);
            M.Append(M.Append(M.Append(M.Append(COUNTED, M.Add(M.SUM, M.UNITS, 1)),
              M.Add(M.UNITS, M.UNIT_COUNTDOWN, -1)), test), M.Move(M.ZERO_FLAG, M.SUM)) == A.COUNT
  {
    Regroup4(d, M.Add(M.INPUT, M.UNIT_COUNTDOWN, 10), M.Add(M.UNIT_COUNTDOWN, M.TENS_COUNTDOWN, 10),
      M.Move(M.TENS_COUNTDOWN, M.SUM));
    AppendAssoc(d, A.PREPARE, M.While(A.COUNT));
    var test := M.IfZero(M.UNIT_COUNTDOWN, M.UNIT_COUNTDOWN, A.CARRY_TEN, M.ZERO_FLAG);
    AppendAssoc(COUNTED, M.Add(M.SUM, M.UNITS, 1), M.Add(M.UNITS, M.UNIT_COUNTDOWN, -1));
    AppendAssoc(A.TICK_UNITS, test, M.Move(M.ZERO_FLAG, M.SUM));
  }

  lemma {:induction false} ShowGrouped(d: Prog)
    ensures M.Append(M.Append(M.Append(M.Append(M.Append(End, M.Add(M.HUNDREDS, M.HUNDREDS, 48)), M.EMIT),
      M.Clear(M.HUNDREDS, M.HUNDREDS)),
              M.Add(M.HUNDREDS, M.PRINT_TENS, 1)), M.Move(M.PRINT_TENS, M.HUNDREDS)) == A.SHOW_HUNDREDS
    ensures M.Append(M.Append(M.Append(M.Append(End, M.Clear(M.COPY, M.COPY)), M.Clear(M.COPY, M.PRINT_TENS)),
      M.Add(M.PRINT_TENS, M.PRINT_TENS, 1)),
              M.Move(M.PRINT_TENS, M.COPY)) == A.NEED_TENS
    ensures M.Append(M.Append(M.Append(COUNTED, M.Add(M.PRINT_TENS, M.TENS, 48)), M.EMIT),
      M.Move(M.TENS, M.PRINT_TENS)) == A.SHOW_TENS
    ensures var d4 :=
      M.Append(M.Append(M.Append(M.Append(M.Append(M.Append(d, M.Move(M.SUM, M.HUNDREDS)), M.While(A.SHOW_HUNDREDS)),
                        M.CopyCell(M.HUNDREDS, M.TENS)), M.Move(M.BACKUP, M.COPY)), M.While(A.NEED_TENS)),
                          M.Move(M.COPY, M.PRINT_TENS));
            M.Append(M.Append(M.Append(M.Append(M.Append(M.Append(d4, M.While(A.SHOW_TENS)),
              M.Add(M.PRINT_TENS, M.UNITS, 48)), M.EMIT),
              M.Clear(M.UNITS, M.INPUT)), M.Add(M.INPUT, M.INPUT, 10)), M.EMIT)
            == M.Append(d, A.PRINT)
  {
    Regroup5(M.Add(M.HUNDREDS, M.HUNDREDS, 48), M.EMIT, M.Clear(M.HUNDREDS, M.HUNDREDS),
      M.Add(M.HUNDREDS, M.PRINT_TENS, 1), M.Move(M.PRINT_TENS, M.HUNDREDS));
    Regroup4(M.Clear(M.COPY, M.COPY), M.Clear(M.COPY, M.PRINT_TENS), M.Add(M.PRINT_TENS, M.PRINT_TENS, 1),
      M.Move(M.PRINT_TENS, M.COPY));
    Regroup4(COUNTED, M.Add(M.PRINT_TENS, M.TENS, 48), M.EMIT, M.Move(M.TENS, M.PRINT_TENS));
    var d2 := M.Append(M.Append(d, M.Move(M.SUM, M.HUNDREDS)), M.While(A.SHOW_HUNDREDS));
    Regroup5(d2, M.CopyCell(M.HUNDREDS, M.TENS), M.Move(M.BACKUP, M.COPY), M.While(A.NEED_TENS),
      M.Move(M.COPY, M.PRINT_TENS));
    var d5 := M.Append(M.Append(d2, A.DECIDE_TENS), M.While(A.SHOW_TENS));
    Regroup5(M.Append(d5, M.Add(M.PRINT_TENS, M.UNITS, 48)), M.EMIT, M.Clear(M.UNITS, M.INPUT),
      M.Add(M.INPUT, M.INPUT, 10), M.EMIT);
    AppendAssoc(d5, M.Add(M.PRINT_TENS, M.UNITS, 48),
      M.Append(M.EMIT, M.Append(M.Clear(M.UNITS, M.INPUT), M.Append(M.Add(M.INPUT, M.INPUT, 10), M.EMIT))));
    Regroup5(M.Append(d, M.Move(M.SUM, M.HUNDREDS)), M.While(A.SHOW_HUNDREDS), A.DECIDE_TENS, M.While(A.SHOW_TENS),
      A.SHOW_UNITS);
    AppendAssoc(d, M.Move(M.SUM, M.HUNDREDS),
      M.Append(M.While(A.SHOW_HUNDREDS), M.Append(A.DECIDE_TENS, M.Append(M.While(A.SHOW_TENS), A.SHOW_UNITS))));
  }

  method BrainfuckABProgram() returns (program: string)
    ensures program == Flat(A.ADDER)
  {
    var g := new Generator();
    g.Read();
    g.Count();
    g.Show();
    Regroup4(A.READ, A.PREPARE, M.While(A.COUNT), A.PRINT);
    AppendAssoc(A.READ, A.PREPARE, M.While(A.COUNT));
    program := g.program;
  }

  /**
   Main result for the stack generator, structured semantics, machine: the emitted text loads, and on
   every input with two two-digit operands the jump-table machine halts, having printed their decimal
   sum and a newline, and in no other way.
   */
  lemma {:induction false} EmittedProgramAdds(jump: map<nat, nat>, data: seq<byte>, a: nat, b: nat, c: nat, d: nat)
    requires BracketTable(Flat(A.ADDER), jump) && A.Operands(data, a, b, c, d)
    ensures exists final :: Halts(Flat(A.ADDER), jump, Initial(data), final)
    ensures forall final :: Halts(Flat(A.ADDER), jump, Initial(data), final) ==>
              final.out == Decimal((10 * a + b) + (10 * c + d)) + [10]
  {
    TextIsPlaced(A.ADDER, Flat(A.ADDER), jump, 0);
    var sum := A.AdderPrintsSum(data, a, b, c, d);
    MachineMeetsStructure(A.ADDER, Flat(A.ADDER), jump, Initial(data), sum);
    forall final | Halts(Flat(A.ADDER), jump, Initial(data), final)
      ensures final.out == Decimal((10 * a + b) + (10 * c + d)) + [10]
    {
      MachineMeetsStructure(A.ADDER, Flat(A.ADDER), jump, Initial(data), final);
    }
  }

  /**
   On every input, at every step of the emitted program, the pointer is the displacement of the text before that point.
   */
  lemma {:induction false} EmittedPointerIsNet(jump: map<nat, nat>, data: seq<byte>, n: nat)
    requires BracketTable(Flat(A.ADDER), jump)
    ensures var m := Steps(Flat(A.ADDER), jump, n, Machine(0, Initial(data)));
            m.pc <= |Flat(A.ADDER)| && m.c.ptr == Net(Flat(A.ADDER), m.pc)
  {
    TextIsPlaced(A.ADDER, Flat(A.ADDER), jump, 0);
    AdderIsNeutral();
    PointerIsNet(A.ADDER, Flat(A.ADDER), jump, Machine(0, Initial(data)), n);
  }

  lemma {:induction false} EmittedProgramLoads()
    ensures WellBracketed(Flat(A.ADDER))
  {
    var program := Flat(A.ADDER);
    assert TextAt(program, 0, Flat(A.ADDER));
    TextIsLaid(A.ADDER, program, 0);
    DepthAcross(A.ADDER, program, 0);
  }
}
