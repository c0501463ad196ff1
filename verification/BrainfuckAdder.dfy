/**
 The program that cmd/selftest/brainfuck_fixture.go emits, and the proof that it
 prints the decimal sum of its two inputs.
 */
module BrainfuckAdder {
  import opened Common
  import opened Decimals
  import opened Brainfuck
  import opened BrainfuckMacros

  const READ :=
    Append(ReadDigit(SUM, 10),
      Append(ReadDigit(INPUT, 1), Prim(Input, Append(ReadDigit(INPUT, 10), ReadDigit(INPUT, 1)))))

  const PREPARE :=
    Append(Add(INPUT, UNIT_COUNTDOWN, 10), Append(Add(UNIT_COUNTDOWN, TENS_COUNTDOWN, 10), Move(TENS_COUNTDOWN, SUM)))

  const CARRY_HUNDRED :=
    Append(Clear(ZERO_FLAG, TENS), Append(Add(TENS, TENS_COUNTDOWN, 10), Add(TENS_COUNTDOWN, HUNDREDS, 1)))

  const TICK_TENS :=
    Append(Clear(ZERO_FLAG, UNITS),
      Append(Add(UNITS, UNIT_COUNTDOWN, 10), Append(Add(UNIT_COUNTDOWN, TENS, 1), Add(TENS, TENS_COUNTDOWN, -1))))

  const CARRY_TEN := Append(TICK_TENS, IfZero(TENS_COUNTDOWN, TENS_COUNTDOWN, CARRY_HUNDRED, HUNDREDS))

  const TICK_UNITS := Prim(Minus, Append(Add(SUM, UNITS, 1), Add(UNITS, UNIT_COUNTDOWN, -1)))

  const COUNT :=
    Append(TICK_UNITS, Append(IfZero(UNIT_COUNTDOWN, UNIT_COUNTDOWN, CARRY_TEN, ZERO_FLAG), Move(ZERO_FLAG, SUM)))

  const SHOW_HUNDREDS :=
    Append(Add(HUNDREDS, HUNDREDS, 48),
           Append(EMIT,
             Append(Clear(HUNDREDS, HUNDREDS), Append(Add(HUNDREDS, PRINT_TENS, 1), Move(PRINT_TENS, HUNDREDS)))))

  const NEED_TENS :=
    Append(Clear(COPY, COPY),
      Append(Clear(COPY, PRINT_TENS), Append(Add(PRINT_TENS, PRINT_TENS, 1), Move(PRINT_TENS, COPY))))

  const SHOW_TENS := Prim(Minus, Append(Add(PRINT_TENS, TENS, 48), Append(EMIT, Move(TENS, PRINT_TENS))))

  const SHOW_UNITS :=
    Append(Add(PRINT_TENS, UNITS, 48), Append(EMIT, Append(Clear(UNITS, INPUT), Append(Add(INPUT, INPUT, 10), EMIT))))

  const DECIDE_TENS :=
    Append(CopyCell(HUNDREDS, TENS), Append(Move(BACKUP, COPY), Append(While(NEED_TENS), Move(COPY, PRINT_TENS))))

  const PRINT :=
    Append(Move(SUM, HUNDREDS), Append(While(SHOW_HUNDREDS), Append(DECIDE_TENS, Append(While(SHOW_TENS), SHOW_UNITS))))

  const ADDER := Append(READ, Append(PREPARE, Append(While(COUNT), PRINT)))

  // Reading.

  function Weighed(c: Config, weight: nat): Config {
    Set(Set(c, INPUT, 0), SUM, (At(c, SUM) + weight * At(c, INPUT)) % 256)
  }

  lemma {:induction false} WeighedCell(c: Config, weight: nat, j: int)
    ensures Cell(Weighed(c, weight).tape, j) ==
            if j == INPUT then 0 else if j == SUM then (At(c, SUM) + weight * At(c, INPUT)) % 256 else Cell(c.tape, j)
  {
  }

  lemma {:induction false} WeighedSum(x: int, weight: nat, d: nat)
    requires d > 0
    ensures ((x + weight) % 256 + weight * (d - 1)) % 256 == (x + weight * d) % 256
  {
    assert weight + weight * (d - 1) == weight * d;
    AddTwice(x, weight, weight * (d - 1));
  }

  lemma {:induction false} WeighedStep(c: Config, c1: Config, weight: nat)
    requires c1 == c.(tape := c1.tape) && At(c, INPUT) > 0 && At(c1, INPUT) == At(c, INPUT) - 1
    requires At(c1, SUM) == (At(c, SUM) + weight) % 256
    requires forall j :: j != SUM && j != INPUT ==> Cell(c1.tape, j) == Cell(c.tape, j)
    ensures Weighed(c1, weight) == Weighed(c, weight)
  {
    WeighedSum(At(c, SUM), weight, At(c, INPUT));
    forall j ensures Cell(Weighed(c1, weight).tape, j) == Cell(Weighed(c, weight).tape, j) {
      WeighedCell(c, weight, j);
      WeighedCell(c1, weight, j);
    }
    TapeExtensional(Weighed(c1, weight).tape, Weighed(c, weight).tape);
  }

  lemma {:induction false} WeighRuns(c: Config, weight: nat)
    requires c.ptr == INPUT
    ensures Runs(While(Prim(Minus, Append(Add(INPUT, SUM, weight), Move(SUM, INPUT)))), c, Weighed(c, weight))
    decreases At(c, INPUT)
  {
    var body := Prim(Minus, Append(Add(INPUT, SUM, weight), Move(SUM, INPUT)));
    if At(c, INPUT) == 0 {
      TapeExtensional(Weighed(c, weight).tape, c.tape);
      RunsSkip(body, c);
    } else {
      var c1 := Do(Minus, c);
      var c2 := Added(c1, SUM, weight);
      var c3 := Moved(c2, INPUT);
      AddRuns(INPUT, SUM, weight, c1);
      MoveRuns(SUM, INPUT, c2);
      RunsAppend(Add(INPUT, SUM, weight), Move(SUM, INPUT), c1, c2, c3);
      RunsPrim(Minus, Append(Add(INPUT, SUM, weight), Move(SUM, INPUT)), c, c3);
      WeighedStep(c, c3, weight);
      WeighRuns(c3, weight);
      RunsIterate(body, c, c3, Weighed(c, weight));
    }
  }

  predicate DigitAt(c: Config, d: nat) {
    c.pos < |c.data| && d < 10 && c.data[c.pos] == 48 + d
  }

  /** `readDigit` adds weight times the next digit to SUM. */
  lemma {:induction false} ReadDigitRuns(p: int, weight: nat, d: nat, c: Config) returns (c': Config)
    requires c.ptr == p && DigitAt(c, d)
    ensures Runs(ReadDigit(p, weight), c, c')
    ensures c' == c.(tape := c'.tape, ptr := INPUT, pos := c.pos + 1)
    ensures At(c', INPUT) == 0 && At(c', SUM) == (At(c, SUM) + weight * d) % 256
    ensures forall j :: j != INPUT && j != SUM ==> Cell(c'.tape, j) == Cell(c.tape, j)
  {
    var c1 := Moved(c, INPUT);
    var c2 := Do(Input, c1);
    var c3 := Added(c2, INPUT, -48);
    c' := Weighed(c3, weight);
    var loop := While(Prim(Minus, Append(Add(INPUT, SUM, weight), Move(SUM, INPUT))));
    MoveRuns(p, INPUT, c);
    AddRuns(INPUT, INPUT, -48, c2);
    WeighRuns(c3, weight);
    RunsAppend(Add(INPUT, INPUT, -48), loop, c2, c3, c');
    RunsPrim(Input, Append(Add(INPUT, INPUT, -48), loop), c1, c');
    RunsAppend(Move(p, INPUT), Prim(Input, Append(Add(INPUT, INPUT, -48), loop)), c, c1, c');
    assert At(c2, INPUT) == 48 + d && At(c3, INPUT) == d && At(c3, SUM) == At(c, SUM);
  }

  /** Input "ab?cd" puts the sum of the two numbers into SUM. */
  predicate Operands(data: seq<byte>, a: nat, b: nat, c: nat, d: nat) {
    && |data| >= 5
    && a < 10 && b < 10 && c < 10 && d < 10
    && data[0] == 48 + a && data[1] == 48 + b && data[3] == 48 + c && data[4] == 48 + d
  }

  /** Two digits, the first of them tens. */
  lemma {:induction false} ReadPairRuns(p: int, sum: nat, tens: nat, units: nat, c: Config)
    returns (c1: Config, c2: Config)
    requires c.ptr == p && DigitAt(c, tens) && c.pos + 1 < |c.data| && units < 10 && c.data[c.pos + 1] == 48 + units
    requires At(c, SUM) == sum < 100
    ensures Runs(ReadDigit(p, 10), c, c1) && Runs(ReadDigit(INPUT, 1), c1, c2)
    ensures c2 == c.(tape := c2.tape, ptr := INPUT, pos := c.pos + 2)
    ensures At(c2, INPUT) == 0 && At(c2, SUM) == sum + (10 * tens + units)
    ensures forall j :: j != INPUT && j != SUM ==> Cell(c2.tape, j) == Cell(c.tape, j)
  {
    c1 := ReadDigitRuns(p, 10, tens, c);
    assert At(c1, SUM) == sum + 10 * tens;
    c2 := ReadDigitRuns(INPUT, 1, units, c1);
  }

  lemma {:induction false} ReadRuns(data: seq<byte>, a: nat, b: nat, c: nat, d: nat) returns (m: Config)
    requires Operands(data, a, b, c, d)
    ensures Runs(READ, Initial(data), m)
    ensures m.ptr == INPUT && m.out == []
    ensures forall j :: Cell(m.tape, j) == if j == SUM then 10 * a + b + (10 * c + d) else 0
  {
    var c0 := Initial(data);
    var c1, c2 := ReadPairRuns(SUM, 0, a, b, c0);
    var c3 := Do(Input, c2);
    var c4;
    c4, m := ReadPairRuns(INPUT, 10 * a + b, c, d, c3);
    ReadComposes(c0, c1, c2, c4, m);
  }

  lemma {:induction false} ReadComposes(c0: Config, c1: Config, c2: Config, c4: Config, c5: Config)
    requires Runs(ReadDigit(SUM, 10), c0, c1) && Runs(ReadDigit(INPUT, 1), c1, c2)
    requires Runs(ReadDigit(INPUT, 10), Do(Input, c2), c4) && Runs(ReadDigit(INPUT, 1), c4, c5)
    ensures Runs(READ, c0, c5)
  {
    RunsAppend(ReadDigit(INPUT, 10), ReadDigit(INPUT, 1), Do(Input, c2), c4, c5);
    RunsPrim(Input, Append(ReadDigit(INPUT, 10), ReadDigit(INPUT, 1)), c2, c5);
    RunsAppend(ReadDigit(INPUT, 1), Prim(Input, Append(ReadDigit(INPUT, 10), ReadDigit(INPUT, 1))), c1, c2, c5);
    RunsAppend(ReadDigit(SUM, 10),
      Append(ReadDigit(INPUT, 1), Prim(Input, Append(ReadDigit(INPUT, 10), ReadDigit(INPUT, 1)))), c0, c1, c5);
  }

  // Counting: SUM units are moved, one at a time, into decimal counters.

  /** The counters, with every scratch cell clear. */
  predicate Counters(c: Config, sum: nat, units: nat, unitsLeft: nat, tens: nat, tensLeft: nat, hundreds: nat) {
    && At(c, SUM) == sum
    && At(c, UNITS) == units && At(c, UNIT_COUNTDOWN) == unitsLeft
    && At(c, TENS) == tens && At(c, TENS_COUNTDOWN) == tensLeft
    && At(c, HUNDREDS) == hundreds
    && ScratchClear(c) && At(c, PRINT_TENS) == 0
  }

  /** `s` units are left and `j` have been counted. */
  predicate Counting(c: Config, s: nat, j: nat) {
    c.ptr == SUM && Counters(c, s, j % 10, 10 - j % 10, j / 10 % 10, 10 - j / 10 % 10, j / 100)
  }

  lemma {:induction false} PrepareRuns(c: Config, s: nat)
    requires c.ptr == INPUT && forall j :: Cell(c.tape, j) == if j == SUM then s else 0
    ensures var c' := Moved(Added(Added(c, UNIT_COUNTDOWN, 10), TENS_COUNTDOWN, 10), SUM);
            Runs(PREPARE, c, c') && Counting(c', s, 0)
  {
    var c1 := Added(c, UNIT_COUNTDOWN, 10);
    var c2 := Added(c1, TENS_COUNTDOWN, 10);
    AddRuns(INPUT, UNIT_COUNTDOWN, 10, c);
    AddRuns(UNIT_COUNTDOWN, TENS_COUNTDOWN, 10, c1);
    MoveRuns(TENS_COUNTDOWN, SUM, c2);
    RunsAppend(Add(UNIT_COUNTDOWN, TENS_COUNTDOWN, 10), Move(TENS_COUNTDOWN, SUM), c1, c2, Moved(c2, SUM));
    RunsAppend(Add(INPUT, UNIT_COUNTDOWN, 10),
      Append(Add(UNIT_COUNTDOWN, TENS_COUNTDOWN, 10), Move(TENS_COUNTDOWN, SUM)), c, c1, Moved(c2, SUM));
  }

  function Hundred(c: Config): Config {
    Added(Added(Cleared(c, TENS), TENS_COUNTDOWN, 10), HUNDREDS, 1)
  }

  lemma {:induction false} CarryHundredRuns(c: Config)
    requires c.ptr == ZERO_FLAG
    ensures Runs(CARRY_HUNDRED, c, Hundred(c))
  {
    var c1 := Cleared(c, TENS);
    var c2 := Added(c1, TENS_COUNTDOWN, 10);
    ClearRuns(ZERO_FLAG, TENS, c);
    AddRuns(TENS, TENS_COUNTDOWN, 10, c1);
    AddRuns(TENS_COUNTDOWN, HUNDREDS, 1, c2);
    RunsAppend(Add(TENS, TENS_COUNTDOWN, 10), Add(TENS_COUNTDOWN, HUNDREDS, 1), c1, c2, Hundred(c));
    RunsAppend(Clear(ZERO_FLAG, TENS), Append(Add(TENS, TENS_COUNTDOWN, 10), Add(TENS_COUNTDOWN, HUNDREDS, 1)), c, c1,
      Hundred(c));
  }

  function TensTicked(c: Config): Config {
    Added(Added(Added(Cleared(c, UNITS), UNIT_COUNTDOWN, 10), TENS, 1), TENS_COUNTDOWN, -1)
  }

  lemma {:induction false} TickTensRuns(c: Config)
    requires c.ptr == ZERO_FLAG
    ensures Runs(TICK_TENS, c, TensTicked(c))
  {
    var c1 := Cleared(c, UNITS);
    var c2 := Added(c1, UNIT_COUNTDOWN, 10);
    var c3 := Added(c2, TENS, 1);
    ClearRuns(ZERO_FLAG, UNITS, c);
    AddRuns(UNITS, UNIT_COUNTDOWN, 10, c1);
    AddRuns(UNIT_COUNTDOWN, TENS, 1, c2);
    AddRuns(TENS, TENS_COUNTDOWN, -1, c3);
    RunsAppend(Add(UNIT_COUNTDOWN, TENS, 1), Add(TENS, TENS_COUNTDOWN, -1), c2, c3, TensTicked(c));
    RunsAppend(Add(UNITS, UNIT_COUNTDOWN, 10), Append(Add(UNIT_COUNTDOWN, TENS, 1), Add(TENS, TENS_COUNTDOWN, -1)), c1,
      c2, TensTicked(c));
    RunsAppend(Clear(ZERO_FLAG, UNITS),
      Append(Add(UNITS, UNIT_COUNTDOWN, 10), Append(Add(UNIT_COUNTDOWN, TENS, 1), Add(TENS, TENS_COUNTDOWN, -1))), c,
      c1, TensTicked(c));
  }

  /** `ifZero` with a body of known effect: the body's effect when the cell is zero, else nothing. */
  lemma {:induction false} IfZeroRuns(p: int, cell: int, body: Prog, q: int, c: Config, bodyDone: Config)
    requires c.ptr == p && !IsScratch(cell) && ScratchClear(c)
    requires Runs(body, Moved(c, ZERO_FLAG), bodyDone) && bodyDone.ptr == q && At(bodyDone, ZERO_FLAG) == 0
    ensures Runs(IfZero(p, cell, body, q), c, Moved(if At(c, cell) == 0 then bodyDone else c, ZERO_FLAG))
  {
    if At(c, cell) == 0 {
      IfZeroRunsOnce(p, cell, body, q, c, bodyDone);
    } else {
      IfZeroSkips(p, cell, body, q, c);
    }
  }

  function TenCarried(c: Config): Config {
    var ticked := TensTicked(c);
    Moved(if At(ticked, TENS_COUNTDOWN) == 0 then Hundred(Moved(ticked, ZERO_FLAG)) else ticked, ZERO_FLAG)
  }

  lemma {:induction false} CarryTenRuns(c: Config)
    requires c.ptr == ZERO_FLAG && ScratchClear(c)
    ensures Runs(CARRY_TEN, c, TenCarried(c))
  {
    var ticked := TensTicked(c);
    TickTensRuns(c);
    CarryHundredRuns(Moved(ticked, ZERO_FLAG));
    IfZeroRuns(TENS_COUNTDOWN, TENS_COUNTDOWN, CARRY_HUNDRED, HUNDREDS, ticked, Hundred(Moved(ticked, ZERO_FLAG)));
    RunsAppend(TICK_TENS, IfZero(TENS_COUNTDOWN, TENS_COUNTDOWN, CARRY_HUNDRED, HUNDREDS), c, ticked, TenCarried(c));
  }

  function UnitTicked(c: Config): Config {
    Added(Added(Do(Minus, c), UNITS, 1), UNIT_COUNTDOWN, -1)
  }

  lemma {:induction false} TickUnitsRuns(c: Config)
    requires c.ptr == SUM
    ensures Runs(TICK_UNITS, c, UnitTicked(c))
  {
    var c1 := Do(Minus, c);
    var c2 := Added(c1, UNITS, 1);
    AddRuns(SUM, UNITS, 1, c1);
    AddRuns(UNITS, UNIT_COUNTDOWN, -1, c2);
    RunsAppend(Add(SUM, UNITS, 1), Add(UNITS, UNIT_COUNTDOWN, -1), c1, c2, UnitTicked(c));
    RunsPrim(Minus, Append(Add(SUM, UNITS, 1), Add(UNITS, UNIT_COUNTDOWN, -1)), c, UnitTicked(c));
  }

  function Counted(c: Config): Config {
    var ticked := UnitTicked(c);
    Moved(if At(ticked, UNIT_COUNTDOWN) == 0 then TenCarried(Moved(ticked, ZERO_FLAG)) else ticked, SUM)
  }

  lemma {:induction false} CountRuns(c: Config)
    requires c.ptr == SUM && ScratchClear(c)
    ensures Runs(COUNT, c, Counted(c))
  {
    var ticked := UnitTicked(c);
    var carried := TenCarried(Moved(ticked, ZERO_FLAG));
    TickUnitsRuns(c);
    CarryTenRuns(Moved(ticked, ZERO_FLAG));
    IfZeroRuns(UNIT_COUNTDOWN, UNIT_COUNTDOWN, CARRY_TEN, ZERO_FLAG, ticked, carried);
    var decided := Moved(if At(ticked, UNIT_COUNTDOWN) == 0 then carried else ticked, ZERO_FLAG);
    MoveRuns(ZERO_FLAG, SUM, decided);
    RunsAppend(IfZero(UNIT_COUNTDOWN, UNIT_COUNTDOWN, CARRY_TEN, ZERO_FLAG), Move(ZERO_FLAG, SUM), ticked, decided,
      Counted(c));
    RunsAppend(TICK_UNITS, Append(IfZero(UNIT_COUNTDOWN, UNIT_COUNTDOWN, CARRY_TEN, ZERO_FLAG), Move(ZERO_FLAG, SUM)),
      c, ticked, Counted(c));
  }

  lemma {:induction false} UnitTickedCounters(c: Config, s: nat, u: nat, ul: nat, t: nat, tl: nat, h: nat)
    requires c.ptr == SUM && Counters(c, s, u, ul, t, tl, h) && s > 0 && u < 255 && ul > 0
    ensures Counters(UnitTicked(c), s - 1, u + 1, ul - 1, t, tl, h) && UnitTicked(c).out == c.out
  {
  }

  lemma {:induction false} TensTickedCounters(c: Config, s: nat, u: nat, ul: nat, t: nat, tl: nat, h: nat)
    requires Counters(c, s, u, ul, t, tl, h) && ul == 0 && t < 255 && tl > 0
    ensures Counters(TensTicked(c), s, 0, 10, t + 1, tl - 1, h) && TensTicked(c).out == c.out
  {
  }

  lemma {:induction false} HundredCounters(c: Config, s: nat, u: nat, ul: nat, t: nat, tl: nat, h: nat)
    requires Counters(c, s, u, ul, t, tl, h) && tl == 0 && h < 255
    ensures Counters(Hundred(c), s, u, ul, 0, 10, h + 1) && Hundred(c).out == c.out
  {
  }

  lemma {:induction false} DigitsOfSuccessor(j: nat)
    ensures j % 10 < 9 ==> (j + 1) % 10 == j % 10 + 1 && (j + 1) / 10 == j / 10
    ensures j % 10 == 9 ==> (j + 1) % 10 == 0 && (j + 1) / 10 == j / 10 + 1
    ensures j / 100 == j / 10 / 10
  {
  }

  /** A carry out of the units column, and out of the tens column when that is full. */
  lemma {:induction false} TenCarriedCounters(c: Config, s: nat, t: nat, h: nat)
    requires t < 10 && h < 255 && Counters(c, s, 10, 0, t, 10 - t, h)
    ensures TenCarried(c).out == c.out
    ensures if t == 9 then Counters(TenCarried(c), s, 0, 10, 0, 10, h + 1)
      else Counters(TenCarried(c), s, 0, 10, t + 1, 9 - t, h)
  {
    TensTickedCounters(c, s, 10, 0, t, 10 - t, h);
    var c1 := TensTicked(c);
    if t == 9 {
      HundredCounters(Moved(c1, ZERO_FLAG), s, 0, 10, 10, 0, h);
    }
  }

  lemma {:induction false} CountedCounters(c: Config, s: nat, u: nat, t: nat, h: nat)
    requires c.ptr == SUM && s > 0 && u < 10 && t < 10 && h < 255 && Counters(c, s, u, 10 - u, t, 10 - t, h)
    ensures Counted(c).ptr == SUM && Counted(c).out == c.out
    ensures if u < 9 then Counters(Counted(c), s - 1, u + 1, 9 - u, t, 10 - t, h)
            else if t < 9 then Counters(Counted(c), s - 1, 0, 10, t + 1, 9 - t, h)
            else Counters(Counted(c), s - 1, 0, 10, 0, 10, h + 1)
  {
    UnitTickedCounters(c, s, u, 10 - u, t, 10 - t, h);
    if u == 9 {
      TenCarriedCounters(Moved(UnitTicked(c), ZERO_FLAG), s - 1, t, h);
    }
  }

  /** The three decimal digits of the next number, by where the carry stops. */
  lemma {:induction false} DigitsAdvance(j: nat)
    ensures var u, t, h := j % 10, j / 10 % 10, j / 100;
            var u', t', h' := (j + 1) % 10, (j + 1) / 10 % 10, (j + 1) / 100;
            if u < 9 then (u', t', h') == (u + 1, t, h) else if t < 9 then (u', t', h') == (0, t + 1, h)
              else (u', t', h') == (0, 0, h + 1)
  {
    DigitsOfSuccessor(j);
    DigitsOfSuccessor(j / 10);
    DigitsOfSuccessor(j + 1);
  }

  lemma {:induction false} CountedAdvances(c: Config, s: nat, j: nat)
    requires Counting(c, s, j) && s > 0 && j < 999
    ensures Counting(Counted(c), s - 1, j + 1) && Counted(c).out == c.out
  {
    var u, t, h := j % 10, j / 10 % 10, j / 100;
    CountedCounters(c, s, u, t, h);
    DigitsAdvance(j);
  }

  lemma {:induction false} CountLoopRuns(c: Config, s: nat, j: nat) returns (c': Config)
    requires Counting(c, s, j) && s + j < 1000
    ensures Runs(While(COUNT), c, c') && Counting(c', 0, s + j) && c'.out == c.out
    decreases s
  {
    if s == 0 {
      RunsSkip(COUNT, c);
      c' := c;
    } else {
      CountRuns(c);
      CountedAdvances(c, s, j);
      c' := CountLoopRuns(Counted(c), s - 1, j + 1);
      RunsIterate(COUNT, c, Counted(c), c');
    }
  }

  // Printing.

  /** What the printing phase still needs: the digits, the clear copy cells and the tens-needed mark. */
  predicate Printing(c: Config, hundreds: nat, tens: nat, units: nat, mark: nat) {
    && At(c, HUNDREDS) == hundreds && At(c, TENS) == tens && At(c, UNITS) == units
    && At(c, PRINT_TENS) == mark && At(c, COPY) == 0 && At(c, BACKUP) == 0
  }

  lemma {:induction false} EmitRuns(c: Config)
    ensures Runs(EMIT, c, Do(Output, c))
  {
    RunsEnd(Do(Output, c));
    RunsPrim(Output, End, c, Do(Output, c));
  }

  lemma {:induction false} ShowHundredsOnce(c: Config, h: nat, t: nat, u: nat) returns (c': Config)
    requires c.ptr == HUNDREDS && Printing(c, h, t, u, 0) && h < 10
    ensures Runs(SHOW_HUNDREDS, c, c') && c'.ptr == HUNDREDS && Printing(c', 0, t, u, 1) && c'.out == c.out + [48 + h]
  {
    var c1 := Added(c, HUNDREDS, 48);
    var c2 := Do(Output, c1);
    var c3 := Cleared(c2, HUNDREDS);
    var c4 := Added(c3, PRINT_TENS, 1);
    c' := Moved(c4, HUNDREDS);
    AddRuns(HUNDREDS, HUNDREDS, 48, c);
    EmitRuns(c1);
    ClearRuns(HUNDREDS, HUNDREDS, c2);
    AddRuns(HUNDREDS, PRINT_TENS, 1, c3);
    MoveRuns(PRINT_TENS, HUNDREDS, c4);
    RunsAppend(Add(HUNDREDS, PRINT_TENS, 1), Move(PRINT_TENS, HUNDREDS), c3, c4, c');
    RunsAppend(Clear(HUNDREDS, HUNDREDS), Append(Add(HUNDREDS, PRINT_TENS, 1), Move(PRINT_TENS, HUNDREDS)), c2, c3, c');
    RunsAppend(EMIT,
      Append(Clear(HUNDREDS, HUNDREDS), Append(Add(HUNDREDS, PRINT_TENS, 1), Move(PRINT_TENS, HUNDREDS))), c1, c2, c');
    RunsAppend(Add(HUNDREDS, HUNDREDS, 48),
               Append(EMIT,
                 Append(Clear(HUNDREDS, HUNDREDS), Append(Add(HUNDREDS, PRINT_TENS, 1), Move(PRINT_TENS, HUNDREDS)))),
                 c, c1, c');
  }

  lemma {:induction false} ShowHundredsRuns(c: Config, h: nat, t: nat, u: nat) returns (c': Config)
    requires c.ptr == HUNDREDS && Printing(c, h, t, u, 0) && h < 10
    ensures Runs(While(SHOW_HUNDREDS), c, c') && c'.ptr == HUNDREDS
    ensures Printing(c', 0, t, u, if h == 0 then 0 else 1) && c'.out == c.out + (if h == 0 then [] else [48 + h])
  {
    if h == 0 {
      RunsSkip(SHOW_HUNDREDS, c);
      c' := c;
      assert c.out == c.out + [];
    } else {
      c' := ShowHundredsOnce(c, h, t, u);
      RunsSkip(SHOW_HUNDREDS, c');
      RunsIterate(SHOW_HUNDREDS, c, c', c');
    }
  }

  lemma {:induction false} NeedTensOnce(c: Config) returns (c': Config)
    requires c.ptr == COPY
    ensures Runs(NEED_TENS, c, c') && c'.ptr == COPY && c'.out == c.out
    ensures At(c', COPY) == 0 && At(c', PRINT_TENS) == 1
    ensures forall j :: j != COPY && j != PRINT_TENS ==> Cell(c'.tape, j) == Cell(c.tape, j)
  {
    var c1 := Cleared(c, COPY);
    var c2 := Cleared(c1, PRINT_TENS);
    var c3 := Added(c2, PRINT_TENS, 1);
    c' := Moved(c3, COPY);
    ClearRuns(COPY, COPY, c);
    ClearRuns(COPY, PRINT_TENS, c1);
    AddRuns(PRINT_TENS, PRINT_TENS, 1, c2);
    MoveRuns(PRINT_TENS, COPY, c3);
    RunsAppend(Add(PRINT_TENS, PRINT_TENS, 1), Move(PRINT_TENS, COPY), c2, c3, c');
    RunsAppend(Clear(COPY, PRINT_TENS), Append(Add(PRINT_TENS, PRINT_TENS, 1), Move(PRINT_TENS, COPY)), c1, c2, c');
    RunsAppend(Clear(COPY, COPY),
      Append(Clear(COPY, PRINT_TENS), Append(Add(PRINT_TENS, PRINT_TENS, 1), Move(PRINT_TENS, COPY))), c, c1, c');
  }

  lemma {:induction false} DecideTensRuns(c: Config, h: nat, t: nat, u: nat, mark: nat) returns (c': Config)
    requires c.ptr == HUNDREDS && Printing(c, h, t, u, mark)
    ensures Runs(DECIDE_TENS, c, c') && c'.ptr == PRINT_TENS && c'.out == c.out
    ensures Printing(c', h, t, u, if t == 0 then mark else 1)
  {
    var c1 := Copied(c, TENS);
    var c2 := Moved(c1, COPY);
    CopyCellRuns(HUNDREDS, TENS, c);
    CopyCellRestores(TENS, c);
    assert At(c2, COPY) == t;
    MoveRuns(BACKUP, COPY, c1);
    var c3;
    if t == 0 {
      RunsSkip(NEED_TENS, c2);
      c3 := c2;
    } else {
      c3 := NeedTensOnce(c2);
      RunsSkip(NEED_TENS, c3);
      RunsIterate(NEED_TENS, c2, c3, c3);
    }
    c' := Moved(c3, PRINT_TENS);
    MoveRuns(COPY, PRINT_TENS, c3);
    RunsAppend(While(NEED_TENS), Move(COPY, PRINT_TENS), c2, c3, c');
    RunsAppend(Move(BACKUP, COPY), Append(While(NEED_TENS), Move(COPY, PRINT_TENS)), c1, c2, c');
    RunsAppend(CopyCell(HUNDREDS, TENS), Append(Move(BACKUP, COPY), Append(While(NEED_TENS), Move(COPY, PRINT_TENS))),
      c, c1, c');
  }

  lemma {:induction false} ShowTensRuns(c: Config, t: nat, u: nat, mark: nat) returns (c': Config)
    requires c.ptr == PRINT_TENS && At(c, TENS) == t < 10 && At(c, UNITS) == u && At(c, PRINT_TENS) == mark <= 1
    ensures Runs(While(SHOW_TENS), c, c') && c'.ptr == PRINT_TENS && At(c', UNITS) == u
    ensures c'.out == c.out + (if mark == 0 then [] else [48 + t])
  {
    if mark == 0 {
      RunsSkip(SHOW_TENS, c);
      c' := c;
      assert c.out == c.out + [];
    } else {
      var c1 := Do(Minus, c);
      var c2 := Added(c1, TENS, 48);
      var c3 := Do(Output, c2);
      c' := Moved(c3, PRINT_TENS);
      AddRuns(PRINT_TENS, TENS, 48, c1);
      EmitRuns(c2);
      MoveRuns(TENS, PRINT_TENS, c3);
      RunsAppend(EMIT, Move(TENS, PRINT_TENS), c2, c3, c');
      RunsAppend(Add(PRINT_TENS, TENS, 48), Append(EMIT, Move(TENS, PRINT_TENS)), c1, c2, c');
      RunsPrim(Minus, Append(Add(PRINT_TENS, TENS, 48), Append(EMIT, Move(TENS, PRINT_TENS))), c, c');
      RunsSkip(SHOW_TENS, c');
      RunsIterate(SHOW_TENS, c, c', c');
    }
  }

  lemma {:induction false} ShowUnitsRuns(c: Config, u: nat) returns (c': Config)
    requires c.ptr == PRINT_TENS && At(c, UNITS) == u < 10
    ensures Runs(SHOW_UNITS, c, c') && c'.out == c.out + [48 + u] + [10]
  {
    var c1 := Added(c, UNITS, 48);
    var c2 := Do(Output, c1);
    var c3 := Cleared(c2, INPUT);
    var c4 := Added(c3, INPUT, 10);
    c' := Do(Output, c4);
    AddRuns(PRINT_TENS, UNITS, 48, c);
    EmitRuns(c1);
    ClearRuns(UNITS, INPUT, c2);
    AddRuns(INPUT, INPUT, 10, c3);
    EmitRuns(c4);
    RunsAppend(Add(INPUT, INPUT, 10), EMIT, c3, c4, c');
    RunsAppend(Clear(UNITS, INPUT), Append(Add(INPUT, INPUT, 10), EMIT), c2, c3, c');
    RunsAppend(EMIT, Append(Clear(UNITS, INPUT), Append(Add(INPUT, INPUT, 10), EMIT)), c1, c2, c');
    RunsAppend(Add(PRINT_TENS, UNITS, 48),
      Append(EMIT, Append(Clear(UNITS, INPUT), Append(Add(INPUT, INPUT, 10), EMIT))), c, c1, c');
  }

  lemma {:induction false} ThreeDigits(n: nat)
    requires n < 1000
    ensures var h, t, u := n / 100, n / 10 % 10, n % 10;
            Decimal(n) == (if h == 0 then [] else [48 + h]) + (if h == 0 && t == 0 then [] else [48 + t]) + [48 + u]
  {
    if n >= 100 {
      assert Decimal(n / 10) == Decimal(n / 100) + [48 + n / 10 % 10] by { assert n / 10 / 10 == n / 100; }
    }
  }

  lemma {:induction false} PrintRuns(c: Config, n: nat) returns (c': Config)
    requires Counting(c, 0, n) && n < 1000
    ensures Runs(PRINT, c, c') && c'.out == c.out + Decimal(n) + [10]
  {
    var h, t, u := n / 100, n / 10 % 10, n % 10;
    var mark := if h == 0 then 0 else 1;
    var c1 := Moved(c, HUNDREDS);
    MoveRuns(SUM, HUNDREDS, c);
    var c2 := ShowHundredsRuns(c1, h, t, u);
    var c3 := DecideTensRuns(c2, 0, t, u, mark);
    var c4 := ShowTensRuns(c3, t, u, if t == 0 then mark else 1);
    c' := ShowUnitsRuns(c4, u);
    RunsAppend(While(SHOW_TENS), SHOW_UNITS, c3, c4, c');
    RunsAppend(DECIDE_TENS, Append(While(SHOW_TENS), SHOW_UNITS), c2, c3, c');
    RunsAppend(While(SHOW_HUNDREDS), Append(DECIDE_TENS, Append(While(SHOW_TENS), SHOW_UNITS)), c1, c2, c');
    RunsAppend(Move(SUM, HUNDREDS),
      Append(While(SHOW_HUNDREDS), Append(DECIDE_TENS, Append(While(SHOW_TENS), SHOW_UNITS))), c, c1, c');
    ThreeDigits(n);
  }

  /**
   Main result: on two two-digit operands the emitted program ends in one configuration only, having printed their sum
   and a newline.
   */
  lemma {:induction false} AdderPrintsSum(data: seq<byte>, a: nat, b: nat, c: nat, d: nat) returns (final: Config)
    requires Operands(data, a, b, c, d)
    ensures Runs(ADDER, Initial(data), final)
    ensures final.out == Decimal((10 * a + b) + (10 * c + d)) + [10]
    ensures forall other :: Runs(ADDER, Initial(data), other) ==> other == final
  {
    var n := (10 * a + b) + (10 * c + d);
    var m1 := ReadRuns(data, a, b, c, d);
    PrepareRuns(m1, n);
    var m2 := Moved(Added(Added(m1, UNIT_COUNTDOWN, 10), TENS_COUNTDOWN, 10), SUM);
    var m3 := CountLoopRuns(m2, n, 0);
    final := PrintRuns(m3, n);
    RunsAppend(While(COUNT), PRINT, m2, m3, final);
    RunsAppend(PREPARE, Append(While(COUNT), PRINT), m1, m2, final);
    RunsAppend(READ, Append(PREPARE, Append(While(COUNT), PRINT)), Initial(data), m1, final);
    assert [] + Decimal(n) + [10] == Decimal(n) + [10];
    forall other | Runs(ADDER, Initial(data), other) ensures other == final {
      RunsIsFunctional(ADDER, Initial(data), final, other);
    }
  }
}
