/**
 The macros of cmd/selftest/brainfuck_fixture.go as structured programs, and the
 contract of each on every tape.  A macro is emitted at a tracked position `p`
 and leaves the tracked position its comment names.
 */
module BrainfuckMacros {
  import opened Common
  import opened Brainfuck

  const SUM := 0
  const INPUT := 1
  const UNITS := 3
  const TENS := 4
  const HUNDREDS := 5
  const UNIT_COUNTDOWN := 6
  const COPY := 7
  const BACKUP := 8
  const ZERO_FLAG := 9
  const PRINT_TENS := 10
  const TENS_COUNTDOWN := 11

  function Append(p: Prog, q: Prog): Prog {
    match p
    case End => q
    case Prim(op, rest) => Prim(op, Append(rest, q))
    case Loop(body, rest) => Loop(body, Append(rest, q))
  }

  function Repeat(op: Op, n: nat): Prog {
    if n == 0 then End else Prim(op, Repeat(op, n - 1))
  }

  function While(body: Prog): Prog {
    Loop(body, End)
  }

  const EMIT := Prim(Output, End)

  /** Ends at `cell`. */
  function Move(p: int, cell: int): Prog {
    if cell > p then Repeat(Right, cell - p) else Repeat(Left, p - cell)
  }

  /** Ends at `cell`. */
  function Add(p: int, cell: int, amount: int): Prog {
    Append(Move(p, cell), if amount > 0 then Repeat(Plus, amount) else Repeat(Minus, -amount))
  }

  /** Ends at `cell`. */
  function Clear(p: int, cell: int): Prog {
    Append(Move(p, cell), While(Prim(Minus, End)))
  }

  function Drain(cell: int): Prog {
    Prim(Minus, Append(Add(cell, COPY, 1), Append(Add(COPY, BACKUP, 1), Move(BACKUP, cell))))
  }

  function Restore(cell: int): Prog {
    Prim(Minus, Append(Add(BACKUP, cell, 1), Move(cell, BACKUP)))
  }

  /** Ends at BACKUP. */
  function CopyCell(p: int, cell: int): Prog {
    Append(Move(p, cell), Append(While(Drain(cell)), Append(Move(cell, BACKUP), While(Restore(cell)))))
  }

  const DROP_FLAG := Append(Clear(COPY, COPY), Append(Clear(COPY, ZERO_FLAG), Move(ZERO_FLAG, COPY)))

  /** Everything of `ifZero` before the body's loop; ends at ZERO_FLAG. */
  function Test(p: int, cell: int): Prog {
    Append(Add(p, ZERO_FLAG, 1),
           Append(CopyCell(ZERO_FLAG, cell),
             Append(Move(BACKUP, COPY), Append(While(DROP_FLAG), Move(COPY, ZERO_FLAG)))))
  }

  /** `body` is emitted at ZERO_FLAG and ends at `q`; the macro ends at ZERO_FLAG. */
  function IfZero(p: int, cell: int, body: Prog, q: int): Prog {
    Append(Test(p, cell), While(Prim(Minus, Append(body, Move(q, ZERO_FLAG)))))
  }

  /** Ends at INPUT. */
  function ReadDigit(p: int, weight: int): Prog {
    Append(Move(p, INPUT),
           Prim(Input,
             Append(Add(INPUT, INPUT, -48), While(Prim(Minus, Append(Add(INPUT, SUM, weight), Move(SUM, INPUT)))))))
  }

  // Rules for composing terminating runs.

  lemma {:induction false} ExecAppend(p: Prog, q: Prog, c: Config, f1: nat, f2: nat)
    requires Exec(p, c, f1).Some? && Exec(q, Exec(p, c, f1).value, f2).Some?
    ensures Exec(Append(p, q), c, f1 + f2) == Exec(q, Exec(p, c, f1).value, f2)
    decreases f1, p
  {
    match p
    case End =>
      MoreFuel(q, c, f2, f1 + f2);
    case Prim(op, rest) =>
      ExecAppend(rest, q, Do(op, c), f1, f2);
    case Loop(body, rest) =>
      if c.Current() == 0 {
        ExecAppend(rest, q, c, f1, f2);
      } else {
        ExecIteration(p, c, f1);
        MoreFuel(body, c, f1 - 1, f1 - 1 + f2);
        ExecAppend(p, q, Exec(body, c, f1 - 1).value, f1 - 1, f2);
      }
  }

  lemma {:induction false} RunsAppend(p: Prog, q: Prog, c: Config, c1: Config, c2: Config)
    requires Runs(p, c, c1) && Runs(q, c1, c2)
    ensures Runs(Append(p, q), c, c2)
  {
    var f1: nat :| Exec(p, c, f1) == Some(c1);
    var f2: nat :| Exec(q, c1, f2) == Some(c2);
    ExecAppend(p, q, c, f1, f2);
  }

  lemma {:induction false} RunsPrim(op: Op, rest: Prog, c: Config, c': Config)
    requires Runs(rest, Do(op, c), c')
    ensures Runs(Prim(op, rest), c, c')
  {
    var f: nat :| Exec(rest, Do(op, c), f) == Some(c');
    assert Exec(Prim(op, rest), c, f) == Some(c');
  }

  lemma {:induction false} RunsEnd(c: Config)
    ensures Runs(End, c, c)
  {
    assert Exec(End, c, 0) == Some(c);
  }

  lemma {:induction false} RunsSkip(body: Prog, c: Config)
    requires c.Current() == 0
    ensures Runs(While(body), c, c)
  {
    assert Exec(While(body), c, 0) == Exec(End, c, 0) == Some(c);
  }

  lemma {:induction false} RunsIterate(body: Prog, c: Config, c1: Config, c2: Config)
    requires c.Current() != 0 && Runs(body, c, c1) && Runs(While(body), c1, c2)
    ensures Runs(While(body), c, c2)
  {
    var f1: nat :| Exec(body, c, f1) == Some(c1);
    var f2: nat :| Exec(While(body), c1, f2) == Some(c2);
    var f := ExecIterationJoins(While(body), c, f1, f2);
  }

  lemma {:induction false} RunsIsFunctional(p: Prog, c: Config, c1: Config, c2: Config)
    requires Runs(p, c, c1) && Runs(p, c, c2)
    ensures c1 == c2
  {
    var f1: nat :| Exec(p, c, f1) == Some(c1);
    var f2: nat :| Exec(p, c, f2) == Some(c2);
    if f1 <= f2 { MoreFuel(p, c, f1, f2); } else { MoreFuel(p, c, f2, f1); }
  }

  // What each macro does, on every tape.

  function At(c: Config, cell: int): byte {
    Cell(c.tape, cell)
  }

  function Set(c: Config, cell: int, v: byte): Config {
    c.(tape := Put(c.tape, cell, v))
  }

  function Moved(c: Config, cell: int): Config {
    c.(ptr := cell)
  }

  function Added(c: Config, cell: int, amount: int): Config {
    Moved(Set(c, cell, (At(c, cell) + amount) % 256), cell)
  }

  function Cleared(c: Config, cell: int): Config {
    Moved(Set(c, cell, 0), cell)
  }

  lemma {:induction false} PutFacts(t: Tape, i: int, j: int, a: byte, b: byte)
    ensures Put(Put(t, i, a), i, b) == Put(t, i, b)
    ensures Put(t, i, Cell(t, i)) == t
    ensures i != j ==> Put(Put(t, i, a), j, b) == Put(Put(t, j, b), i, a)
  {
    TapeExtensional(Put(Put(t, i, a), i, b), Put(t, i, b));
    TapeExtensional(Put(t, i, Cell(t, i)), t);
    if i != j { TapeExtensional(Put(Put(t, i, a), j, b), Put(Put(t, j, b), i, a)); }
  }

  function Sign(op: Op): int {
    if op.Right? || op.Plus? then 1 else -1
  }

  lemma {:induction false} RepeatMoves(op: Op, n: nat, c: Config)
    requires op.Right? || op.Left?
    ensures Runs(Repeat(op, n), c, Moved(c, c.ptr + Sign(op) * n))
  {
    if n == 0 {
      RunsEnd(c);
    } else {
      RepeatMoves(op, n - 1, Do(op, c));
      RunsPrim(op, Repeat(op, n - 1), c, Moved(c, c.ptr + Sign(op) * n));
    }
  }

  lemma {:induction false} AddTwice(x: int, a: int, b: int)
    ensures ((x + a) % 256 + b) % 256 == (x + (a + b)) % 256
  {
  }

  lemma {:induction false} AddedTwice(c: Config, cell: int, a: int, b: int)
    ensures Added(Added(c, cell, a), cell, b) == Added(c, cell, a + b)
  {
    AddTwice(At(c, cell), a, b);
    PutFacts(c.tape, cell, cell, (At(c, cell) + a) % 256, (At(c, cell) + (a + b)) % 256);
  }

  lemma {:induction false} DoIsAdded(op: Op, c: Config)
    requires op.Plus? || op.Minus?
    ensures Do(op, c) == Added(c, c.ptr, Sign(op))
  {
  }

  lemma {:induction false} OneMore(sign: int, n: nat)
    ensures sign + sign * (n - 1) == sign * n
  {
  }

  lemma {:induction false} RepeatAdds(op: Op, n: nat, c: Config)
    requires op.Plus? || op.Minus?
    ensures Runs(Repeat(op, n), c, Added(c, c.ptr, Sign(op) * n))
  {
    if n == 0 {
      PutFacts(c.tape, c.ptr, c.ptr, 0, 0);
      assert Added(c, c.ptr, 0) == c;
      RunsEnd(c);
    } else {
      DoIsAdded(op, c);
      RepeatAdds(op, n - 1, Do(op, c));
      OneMore(Sign(op), n);
      AddedTwice(c, c.ptr, Sign(op), Sign(op) * (n - 1));
      RunsPrim(op, Repeat(op, n - 1), c, Added(c, c.ptr, Sign(op) * n));
    }
  }

  lemma {:induction false} MoveRuns(p: int, cell: int, c: Config)
    requires c.ptr == p
    ensures Runs(Move(p, cell), c, Moved(c, cell))
  {
    if cell > p { RepeatMoves(Right, cell - p, c); } else { RepeatMoves(Left, p - cell, c); }
  }

  lemma {:induction false} AddRuns(p: int, cell: int, amount: int, c: Config)
    requires c.ptr == p
    ensures Runs(Add(p, cell, amount), c, Added(c, cell, amount))
  {
    MoveRuns(p, cell, c);
    if amount > 0 { RepeatAdds(Plus, amount, Moved(c, cell)); } else { RepeatAdds(Minus, -amount, Moved(c, cell)); }
    RunsAppend(Move(p, cell), if amount > 0 then Repeat(Plus, amount) else Repeat(Minus, -amount),
               c, Moved(c, cell), Added(c, cell, amount));
  }

  lemma {:induction false} ZeroLoopRuns(c: Config)
    ensures Runs(While(Prim(Minus, End)), c, Set(c, c.ptr, 0))
    decreases c.Current()
  {
    PutFacts(c.tape, c.ptr, c.ptr, (c.Current() + 255) % 256, 0);
    if c.Current() == 0 {
      RunsSkip(Prim(Minus, End), c);
    } else {
      var c1 := Do(Minus, c);
      RunsEnd(c1);
      RunsPrim(Minus, End, c, c1);
      ZeroLoopRuns(c1);
      RunsIterate(Prim(Minus, End), c, c1, Set(c, c.ptr, 0));
    }
  }

  lemma {:induction false} ClearRuns(p: int, cell: int, c: Config)
    requires c.ptr == p
    ensures Runs(Clear(p, cell), c, Cleared(c, cell))
  {
    MoveRuns(p, cell, c);
    ZeroLoopRuns(Moved(c, cell));
    RunsAppend(Move(p, cell), While(Prim(Minus, End)), c, Moved(c, cell), Cleared(c, cell));
  }

  lemma {:induction false} DrainRuns(cell: int, c: Config)
    requires c.ptr == cell
    ensures Runs(Drain(cell), c, Moved(Added(Added(Do(Minus, c), COPY, 1), BACKUP, 1), cell))
  {
    var c1 := Do(Minus, c);
    var c2 := Added(c1, COPY, 1);
    var c3 := Added(c2, BACKUP, 1);
    AddRuns(cell, COPY, 1, c1);
    AddRuns(COPY, BACKUP, 1, c2);
    MoveRuns(BACKUP, cell, c3);
    RunsAppend(Add(COPY, BACKUP, 1), Move(BACKUP, cell), c2, c3, Moved(c3, cell));
    RunsAppend(Add(cell, COPY, 1), Append(Add(COPY, BACKUP, 1), Move(BACKUP, cell)), c1, c2, Moved(c3, cell));
    RunsPrim(Minus, Append(Add(cell, COPY, 1), Append(Add(COPY, BACKUP, 1), Move(BACKUP, cell))), c, Moved(c3, cell));
  }

  function Drained(c: Config, cell: int): Config {
    var v := At(c, cell);
    Set(Set(Set(c, cell, 0), COPY, (At(c, COPY) + v) % 256), BACKUP, (At(c, BACKUP) + v) % 256)
  }

  /** One unit moved from the cell to COPY and BACKUP. */
  predicate UnitDrained(cell: int, c: Config, c1: Config) {
    && c1 == c.(tape := c1.tape)
    && At(c, cell) > 0 && At(c1, cell) == At(c, cell) - 1
    && At(c1, COPY) == (At(c, COPY) + 1) % 256
    && At(c1, BACKUP) == (At(c, BACKUP) + 1) % 256
    && c1.tape == Put(Put(Put(c.tape, cell, At(c1, cell)), COPY, At(c1, COPY)), BACKUP, At(c1, BACKUP))
  }

  lemma {:induction false} UnitDrains(cell: int, c: Config)
    requires c.ptr == cell && cell != COPY && cell != BACKUP && At(c, cell) > 0
    ensures UnitDrained(cell, c, Moved(Added(Added(Do(Minus, c), COPY, 1), BACKUP, 1), cell))
  {
  }

  lemma {:induction false} DrainedStep(cell: int, c: Config, c1: Config)
    requires cell != COPY && cell != BACKUP && UnitDrained(cell, c, c1)
    ensures Drained(c1, cell) == Drained(c, cell)
  {
    forall j ensures Cell(Drained(c1, cell).tape, j) == Cell(Drained(c, cell).tape, j) {
      UnitDrainedCell(cell, c, c1, j);
      DrainedStepAt(cell, c, c1, j);
    }
    TapeExtensional(Drained(c1, cell).tape, Drained(c, cell).tape);
  }

  lemma {:induction false} UnitDrainedCell(cell: int, c: Config, c1: Config, j: int)
    requires cell != COPY && cell != BACKUP && UnitDrained(cell, c, c1)
    ensures Cell(c1.tape, j) ==
            if j == cell then At(c, cell) - 1
            else if j == COPY || j == BACKUP then (Cell(c.tape, j) + 1) % 256
            else Cell(c.tape, j)
  {
  }

  lemma {:induction false} DrainedStepAt(cell: int, c: Config, c1: Config, j: int)
    requires cell != COPY && cell != BACKUP && At(c, cell) > 0 && At(c1, cell) == At(c, cell) - 1
    requires j == COPY || j == BACKUP ==> Cell(c1.tape, j) == (Cell(c.tape, j) + 1) % 256
    requires j != COPY && j != BACKUP && j != cell ==> Cell(c1.tape, j) == Cell(c.tape, j)
    ensures Cell(Drained(c1, cell).tape, j) == Cell(Drained(c, cell).tape, j)
  {
    DrainedCell(cell, c, j);
    DrainedCell(cell, c1, j);
    if j == COPY || j == BACKUP { AddTwice(Cell(c.tape, j), 1, At(c, cell) - 1); }
  }

  lemma {:induction false} DrainedCell(cell: int, c: Config, j: int)
    requires cell != COPY && cell != BACKUP
    ensures Cell(Drained(c, cell).tape, j) ==
            if j == cell then 0 else if j == COPY || j == BACKUP then (Cell(c.tape, j) + At(c, cell)) % 256
              else Cell(c.tape, j)
  {
  }

  lemma {:induction false} DrainLoopRuns(cell: int, c: Config)
    requires c.ptr == cell && cell != COPY && cell != BACKUP
    ensures Runs(While(Drain(cell)), c, Drained(c, cell))
    decreases At(c, cell)
  {
    if At(c, cell) == 0 {
      TapeExtensional(Drained(c, cell).tape, c.tape);
      RunsSkip(Drain(cell), c);
    } else {
      var c1 := Moved(Added(Added(Do(Minus, c), COPY, 1), BACKUP, 1), cell);
      UnitDrains(cell, c);
      DrainedStep(cell, c, c1);
      DrainRuns(cell, c);
      DrainLoopRuns(cell, c1);
      RunsIterate(Drain(cell), c, c1, Drained(c, cell));
    }
  }

  lemma {:induction false} RestoreRuns(cell: int, c: Config)
    requires c.ptr == BACKUP
    ensures Runs(Restore(cell), c, Moved(Added(Do(Minus, c), cell, 1), BACKUP))
  {
    var c1 := Do(Minus, c);
    var c2 := Added(c1, cell, 1);
    AddRuns(BACKUP, cell, 1, c1);
    MoveRuns(cell, BACKUP, c2);
    RunsAppend(Add(BACKUP, cell, 1), Move(cell, BACKUP), c1, c2, Moved(c2, BACKUP));
    RunsPrim(Minus, Append(Add(BACKUP, cell, 1), Move(cell, BACKUP)), c, Moved(c2, BACKUP));
  }

  function Restored(c: Config, cell: int): Config {
    Set(Set(c, cell, (At(c, cell) + At(c, BACKUP)) % 256), BACKUP, 0)
  }

  lemma {:induction false} RestoredCell(cell: int, c: Config, j: int)
    requires cell != BACKUP
    ensures Cell(Restored(c, cell).tape, j) ==
            if j == BACKUP then 0 else if j == cell then (At(c, cell) + At(c, BACKUP)) % 256 else Cell(c.tape, j)
  {
  }

  lemma {:induction false} RestoresOnce(cell: int, c: Config, j: int)
    requires c.ptr == BACKUP && cell != BACKUP && At(c, BACKUP) > 0
    ensures var c1 := Moved(Added(Do(Minus, c), cell, 1), BACKUP);
            && c1 == c.(tape := c1.tape)
            && Cell(c1.tape, j) == if j == BACKUP then At(c, BACKUP) - 1 else if j == cell then (At(c, cell) + 1) % 256
               else Cell(c.tape, j)
  {
  }

  lemma {:induction false} RestoredStepAt(cell: int, c: Config, c1: Config, j: int)
    requires cell != BACKUP && At(c, BACKUP) > 0 && At(c1, BACKUP) == At(c, BACKUP) - 1
    requires j == cell ==> Cell(c1.tape, j) == (Cell(c.tape, j) + 1) % 256
    requires j != cell && j != BACKUP ==> Cell(c1.tape, j) == Cell(c.tape, j)
    ensures Cell(Restored(c1, cell).tape, j) == Cell(Restored(c, cell).tape, j)
  {
    RestoredCell(cell, c, j);
    RestoredCell(cell, c1, j);
    if j == cell { AddTwice(At(c, cell), 1, At(c, BACKUP) - 1); }
  }

  lemma {:induction false} RestoredStep(cell: int, c: Config)
    requires c.ptr == BACKUP && cell != BACKUP && At(c, BACKUP) > 0
    ensures var c1 := Moved(Added(Do(Minus, c), cell, 1), BACKUP);
            At(c1, BACKUP) == At(c, BACKUP) - 1 && Restored(c1, cell) == Restored(c, cell)
  {
    var c1 := Moved(Added(Do(Minus, c), cell, 1), BACKUP);
    RestoresOnce(cell, c, BACKUP);
    forall j ensures Cell(Restored(c1, cell).tape, j) == Cell(Restored(c, cell).tape, j) {
      RestoresOnce(cell, c, j);
      RestoredStepAt(cell, c, c1, j);
    }
    TapeExtensional(Restored(c1, cell).tape, Restored(c, cell).tape);
  }

  lemma {:induction false} RestoreLoopRuns(cell: int, c: Config)
    requires c.ptr == BACKUP && cell != BACKUP
    ensures Runs(While(Restore(cell)), c, Restored(c, cell))
    decreases At(c, BACKUP)
  {
    if At(c, BACKUP) == 0 {
      TapeExtensional(Restored(c, cell).tape, c.tape);
      RunsSkip(Restore(cell), c);
    } else {
      var c1 := Moved(Added(Do(Minus, c), cell, 1), BACKUP);
      RestoredStep(cell, c);
      RestoreRuns(cell, c);
      RestoreLoopRuns(cell, c1);
      RunsIterate(Restore(cell), c, c1, Restored(c, cell));
    }
  }

  /** The cell's value is added to COPY; the old contents of BACKUP are added to the cell, and BACKUP is zero. */
  function Copied(c: Config, cell: int): Config {
    var v := At(c, cell);
    Moved(Set(Set(Set(c, cell, (v + At(c, BACKUP)) % 256), COPY, (At(c, COPY) + v) % 256), BACKUP, 0), BACKUP)
  }

  /** `copyCell` on every tape. */
  lemma {:induction false} CopyCellRuns(p: int, cell: int, c: Config)
    requires c.ptr == p && cell != COPY && cell != BACKUP
    ensures Runs(CopyCell(p, cell), c, Copied(c, cell))
  {
    var c1 := Moved(c, cell);
    var c2 := Drained(c1, cell);
    var c3 := Moved(c2, BACKUP);
    var c4 := Restored(c3, cell);
    CopiedIsRestored(cell, c);
    MoveRuns(p, cell, c);
    DrainLoopRuns(cell, c1);
    MoveRuns(cell, BACKUP, c2);
    RestoreLoopRuns(cell, c3);
    RunsAppend(Move(cell, BACKUP), While(Restore(cell)), c2, c3, c4);
    RunsAppend(While(Drain(cell)), Append(Move(cell, BACKUP), While(Restore(cell))), c1, c2, c4);
    RunsAppend(Move(p, cell), Append(While(Drain(cell)), Append(Move(cell, BACKUP), While(Restore(cell)))), c, c1, c4);
  }

  lemma {:induction false} CopiedIsRestored(cell: int, c: Config)
    requires cell != COPY && cell != BACKUP
    ensures Restored(Moved(Drained(Moved(c, cell), cell), BACKUP), cell) == Copied(c, cell)
  {
    var drained := Moved(Drained(Moved(c, cell), cell), BACKUP);
    DrainedCell(cell, Moved(c, cell), cell);
    DrainedCell(cell, Moved(c, cell), BACKUP);
    forall j ensures Cell(Restored(drained, cell).tape, j) == Cell(Copied(c, cell).tape, j) {
      DrainedCell(cell, Moved(c, cell), j);
      CopiedIsRestoredAt(cell, c, drained, j);
    }
    TapeExtensional(Restored(drained, cell).tape, Copied(c, cell).tape);
  }

  lemma {:induction false} CopiedIsRestoredAt(cell: int, c: Config, drained: Config, j: int)
    requires cell != COPY && cell != BACKUP
    requires At(drained, cell) == 0 && At(drained, BACKUP) == (At(c, BACKUP) + At(c, cell)) % 256
    requires j == COPY ==> Cell(drained.tape, j) == (Cell(c.tape, j) + At(c, cell)) % 256
    requires j != COPY && j != BACKUP && j != cell ==> Cell(drained.tape, j) == Cell(c.tape, j)
    ensures Cell(Restored(drained, cell).tape, j) == Cell(Copied(c, cell).tape, j)
  {
    RestoredCell(cell, drained, j);
    CopiedCell(cell, c, j);
  }

  lemma {:induction false} CopiedCell(cell: int, c: Config, j: int)
    requires cell != COPY && cell != BACKUP
    ensures Cell(Copied(c, cell).tape, j) ==
            if j == BACKUP then 0
            else if j == cell then (At(c, cell) + At(c, BACKUP)) % 256
            else if j == COPY then (At(c, COPY) + At(c, cell)) % 256
            else Cell(c.tape, j)
  {
  }

  /** With BACKUP clear, `copyCell` adds the cell to COPY and changes nothing else. */
  lemma {:induction false} CopyCellRestores(cell: int, c: Config)
    requires cell != COPY && cell != BACKUP && At(c, BACKUP) == 0
    ensures Copied(c, cell) == Moved(Set(c, COPY, (At(c, COPY) + At(c, cell)) % 256), BACKUP)
  {
    TapeExtensional(Copied(c, cell).tape, Put(c.tape, COPY, (At(c, COPY) + At(c, cell)) % 256));
  }

  lemma {:induction false} DropFlagRuns(c: Config)
    requires c.ptr == COPY
    ensures Runs(DROP_FLAG, c, Set(Set(c, COPY, 0), ZERO_FLAG, 0))
  {
    var c1 := Cleared(c, COPY);
    var c2 := Cleared(c1, ZERO_FLAG);
    ClearRuns(COPY, COPY, c);
    ClearRuns(COPY, ZERO_FLAG, c1);
    MoveRuns(ZERO_FLAG, COPY, c2);
    RunsAppend(Clear(COPY, ZERO_FLAG), Move(ZERO_FLAG, COPY), c1, c2, Moved(c2, COPY));
    RunsAppend(Clear(COPY, COPY), Append(Clear(COPY, ZERO_FLAG), Move(ZERO_FLAG, COPY)), c, c1, Moved(c2, COPY));
  }

  /** The scratch cells that every macro finds and leaves at zero. */
  predicate ScratchClear(c: Config) {
    At(c, COPY) == 0 && At(c, BACKUP) == 0 && At(c, ZERO_FLAG) == 0
  }

  predicate IsScratch(cell: int) {
    cell == COPY || cell == BACKUP || cell == ZERO_FLAG
  }

  /** The test leaves the tape as it was, except that ZERO_FLAG tells whether the cell is zero. */
  lemma {:induction false} TestRuns(p: int, cell: int, c: Config)
    requires c.ptr == p && !IsScratch(cell) && ScratchClear(c)
    ensures Runs(Test(p, cell), c, Moved(Set(c, ZERO_FLAG, if At(c, cell) == 0 then 1 else 0), ZERO_FLAG))
  {
    var c1 := Added(c, ZERO_FLAG, 1);
    var c2 := Copied(c1, cell);
    var c3 := Moved(c2, COPY);
    var c4 := if At(c, cell) == 0 then c3 else Set(Set(c3, COPY, 0), ZERO_FLAG, 0);
    var c5 := Moved(c4, ZERO_FLAG);
    AddRuns(p, ZERO_FLAG, 1, c);
    CopyCellRuns(ZERO_FLAG, cell, c1);
    CopyCellRestores(cell, c1);
    MoveRuns(BACKUP, COPY, c2);
    if At(c, cell) == 0 {
      RunsSkip(DROP_FLAG, c3);
    } else {
      DropFlagRuns(c3);
      RunsSkip(DROP_FLAG, c4);
      RunsIterate(DROP_FLAG, c3, c4, c4);
    }
    MoveRuns(COPY, ZERO_FLAG, c4);
    RunsAppend(While(DROP_FLAG), Move(COPY, ZERO_FLAG), c3, c4, c5);
    RunsAppend(Move(BACKUP, COPY), Append(While(DROP_FLAG), Move(COPY, ZERO_FLAG)), c2, c3, c5);
    RunsAppend(CopyCell(ZERO_FLAG, cell), Append(Move(BACKUP, COPY), Append(While(DROP_FLAG), Move(COPY, ZERO_FLAG))),
      c1, c2, c5);
    RunsAppend(Add(p, ZERO_FLAG, 1),
      Append(CopyCell(ZERO_FLAG, cell), Append(Move(BACKUP, COPY), Append(While(DROP_FLAG), Move(COPY, ZERO_FLAG)))),
      c, c1, c5);
    TapeExtensional(c5.tape, Put(c.tape, ZERO_FLAG, if At(c, cell) == 0 then 1 else 0));
  }

  /** `ifZero` on a nonzero cell does nothing. */
  lemma {:induction false} IfZeroSkips(p: int, cell: int, body: Prog, q: int, c: Config)
    requires c.ptr == p && !IsScratch(cell) && ScratchClear(c) && At(c, cell) != 0
    ensures Runs(IfZero(p, cell, body, q), c, Moved(c, ZERO_FLAG))
  {
    var guarded := Prim(Minus, Append(body, Move(q, ZERO_FLAG)));
    var c1 := Moved(Set(c, ZERO_FLAG, 0), ZERO_FLAG);
    TestRuns(p, cell, c);
    RunsSkip(guarded, c1);
    RunsAppend(Test(p, cell), While(guarded), c, c1, c1);
    PutFacts(c.tape, ZERO_FLAG, ZERO_FLAG, 0, 0);
  }

  /** `ifZero` on a zero cell runs its body exactly once, for any body that leaves the flag clear. */
  lemma {:induction false} IfZeroRunsOnce(p: int, cell: int, body: Prog, q: int, c: Config, c': Config)
    requires c.ptr == p && !IsScratch(cell) && ScratchClear(c) && At(c, cell) == 0
    requires Runs(body, Moved(c, ZERO_FLAG), c') && c'.ptr == q && At(c', ZERO_FLAG) == 0
    ensures Runs(IfZero(p, cell, body, q), c, Moved(c', ZERO_FLAG))
  {
    var guarded := Prim(Minus, Append(body, Move(q, ZERO_FLAG)));
    var c1 := Moved(Set(c, ZERO_FLAG, 1), ZERO_FLAG);
    var c2 := Moved(c', ZERO_FLAG);
    TestRuns(p, cell, c);
    PutFacts(c.tape, ZERO_FLAG, ZERO_FLAG, 1, 0);
    assert Do(Minus, c1) == Moved(c, ZERO_FLAG);
    MoveRuns(q, ZERO_FLAG, c');
    RunsAppend(body, Move(q, ZERO_FLAG), Moved(c, ZERO_FLAG), c', c2);
    RunsPrim(Minus, Append(body, Move(q, ZERO_FLAG)), c1, c2);
    RunsSkip(guarded, c2);
    RunsIterate(guarded, c1, c2, c2);
    RunsAppend(Test(p, cell), While(guarded), c, c1, c2);
  }
}
