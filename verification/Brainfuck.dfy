/**
 The Brainfuck interpreter of scripts/brainfuck.py: bracket matching, the
 jump-table machine, and the structured semantics it is proved against.
 */
module Brainfuck {
  import opened Common

  predicate IsBracket(ch: char) {
    ch == '[' || ch == ']'
  }

  predicate IsCommand(ch: char) {
    ch == '>' || ch == '<' || ch == '+' || ch == '-' || ch == '.' || ch == ',' || IsBracket(ch)
  }

  datatype Op = Right | Left | Plus | Minus | Output | Input

  /** Structured programs. */
  datatype Prog = End | Prim(op: Op, rest: Prog) | Loop(body: Prog, rest: Prog)

  function Symbol(op: Op): char {
    match op
    case Right => '>'
    case Left => '<'
    case Plus => '+'
    case Minus => '-'
    case Output => '.'
    case Input => ','
  }

  function OpOf(ch: char): (op: Op)
    requires IsCommand(ch) && !IsBracket(ch)
    ensures Symbol(op) == ch
  {
    if ch == '>' then Right else if ch == '<' then Left else if ch == '+' then Plus
    else if ch == '-' then Minus else if ch == '.' then Output else Input
  }

  function Size(p: Prog): nat {
    match p
    case End => 0
    case Prim(_, rest) => 1 + Size(rest)
    case Loop(body, rest) => 2 + Size(body) + Size(rest)
  }

  /** The text of a structured program. */
  function Flat(p: Prog): (text: string)
    ensures |text| == Size(p)
  {
    match p
    case End => ""
    case Prim(op, rest) => [Symbol(op)] + Flat(rest)
    case Loop(body, rest) => "[" + Flat(body) + "]" + Flat(rest)
  }

  // The tape is kept without zero entries, so equal contents are equal maps.

  type Tape = t: map<int, byte> | 0 !in t.Values witness map[]

  function Cell(tape: Tape, i: int): byte {
    if i in tape then tape[i] else 0
  }

  function Put(tape: Tape, i: int, v: byte): (tape': Tape)
    ensures forall j :: Cell(tape', j) == if j == i then v else Cell(tape, j)
  {
    if v == 0 then tape - {i} else
    var t := tape[i := v];
    assert forall j :: j in t ==> t[j] != 0 by {
      forall j | j in t ensures t[j] != 0 { if j != i { assert tape[j] in tape.Values; } }
    }
    t
  }

  lemma {:induction false} TapeExtensional(s: Tape, t: Tape)
    requires forall j :: Cell(s, j) == Cell(t, j)
    ensures s == t
  {
    forall j ensures j in s <==> j in t {
      if j in s { assert s[j] in s.Values; assert Cell(s, j) != 0; assert Cell(t, j) != 0; }
      if j in t { assert t[j] in t.Values; assert Cell(t, j) != 0; assert Cell(s, j) != 0; }
    }
    forall j | j in s ensures s[j] == t[j] { assert Cell(s, j) == Cell(t, j); }
    assert s.Keys == t.Keys;
  }

  datatype Config = Config(tape: Tape, ptr: int, data: seq<byte>, pos: nat, out: seq<byte>)
  {
    function Current(): byte { Cell(tape, ptr) }
  }

  function Initial(data: seq<byte>): Config {
    Config(map[], 0, data, 0, [])
  }

  function Do(op: Op, c: Config): Config {
    match op
    case Right => c.(ptr := c.ptr + 1)
    case Left => c.(ptr := c.ptr - 1)
    case Plus => c.(tape := Put(c.tape, c.ptr, (c.Current() + 1) % 256))
    case Minus => c.(tape := Put(c.tape, c.ptr, (c.Current() + 255) % 256))
    case Output => c.(out := c.out + [c.Current()])
    case Input =>
      if c.pos < |c.data| then c.(tape := Put(c.tape, c.ptr, c.data[c.pos]), pos := c.pos + 1)
      else c.(tape := Put(c.tape, c.ptr, 0))
  }

  /** Nested-loop semantics; `fuel` bounds loop iterations and None means that it ran out. */
  function Exec(p: Prog, c: Config, fuel: nat): Option<Config>
    decreases fuel, p
  {
    match p
    case End => Some(c)
    case Prim(op, rest) => Exec(rest, Do(op, c), fuel)
    case Loop(body, rest) =>
      if c.Current() == 0 then Exec(rest, c, fuel)
      else if fuel == 0 then None
      else
        var c1 := Exec(body, c, fuel - 1);
        if c1.None? then None else Exec(p, c1.value, fuel - 1)
  }

  ghost predicate Runs(p: Prog, c: Config, c': Config) {
    exists fuel: nat :: Exec(p, c, fuel) == Some(c')
  }

  lemma {:induction false} MoreFuel(p: Prog, c: Config, fuel: nat, fuel': nat)
    requires fuel <= fuel' && Exec(p, c, fuel).Some?
    ensures Exec(p, c, fuel') == Exec(p, c, fuel)
    decreases fuel, p
  {
    match p
    case End =>
    case Prim(op, rest) => MoreFuel(rest, Do(op, c), fuel, fuel');
    case Loop(body, rest) =>
      if c.Current() == 0 {
        MoreFuel(rest, c, fuel, fuel');
      } else {
        MoreFuel(body, c, fuel - 1, fuel' - 1);
        MoreFuel(p, Exec(body, c, fuel - 1).value, fuel - 1, fuel' - 1);
      }
  }

  // Bracket matching.

  function Depth(program: string, i: nat): int
    requires i <= |program|
  {
    if i == 0 then 0
    else Depth(program, i - 1) + (if program[i - 1] == '[' then 1 else if program[i - 1] == ']' then -1 else 0)
  }

  ghost predicate NeverNegative(program: string, i: nat)
    requires i <= |program|
  {
    forall j :: i <= j <= |program| ==> Depth(program, j) >= 0
  }

  ghost predicate WellBracketed(program: string) {
    && NeverNegative(program, 0)
    && Depth(program, |program|) == 0
  }

  /** `l` and `r` are a matching pair: everything between them stays deeper. */
  ghost predicate Match(program: string, l: nat, r: nat) {
    && l < r < |program|
    && program[l] == '[' && program[r] == ']'
    && Depth(program, r + 1) == Depth(program, l)
    && forall j :: l < j <= r ==> Depth(program, j) > Depth(program, l)
  }

  ghost predicate Paired(program: string, jump: map<nat, nat>, i: nat) {
    && i in jump && jump[i] in jump && jump[jump[i]] == i
    && (if i < jump[i] then Match(program, i, jump[i]) else Match(program, jump[i], i))
  }

  /** The jump table is an involution on exactly the brackets, pairing each with its match. */
  ghost predicate BracketTable(program: string, jump: map<nat, nat>) {
    && (forall i :: i in jump ==> i < |program| && IsBracket(program[i]))
    && (forall i {:trigger Paired(program, jump, i)} :: 0 <= i < |program| && IsBracket(program[i]) ==>
       Paired(program, jump, i))
  }

  datatype BracketError = UnmatchedClosing | UnmatchedOpening

  /** The open brackets of a prefix of length `i`, outermost first. */
  ghost predicate OpenBrackets(program: string, i: nat, stack: seq<nat>)
    requires i <= |program|
  {
    && |stack| == Depth(program, i)
    && forall k :: 0 <= k < |stack| ==>
         && stack[k] < i && program[stack[k]] == '[' && Depth(program, stack[k]) == k
         && forall j :: stack[k] < j <= i ==> Depth(program, j) > k
  }

  /** The brackets of the prefix that are closed are paired, and only those are in the table. */
  ghost predicate PrefixTable(program: string, i: nat, stack: seq<nat>, jump: map<nat, nat>)
    requires i <= |program|
  {
    && (forall j :: j in jump ==> j < i && IsBracket(program[j]) && j !in stack)
    && (forall j {:trigger Paired(program, jump, j)} :: 0 <= j < i && IsBracket(program[j]) && j !in stack ==>
       Paired(program, jump, j))
  }

  lemma {:induction false} OpenBracketsPush(program: string, i: nat, stack: seq<nat>)
    requires i < |program| && program[i] == '[' && OpenBrackets(program, i, stack)
    ensures OpenBrackets(program, i + 1, stack + [i])
  {
  }

  lemma {:induction false} OpenBracketsPop(program: string, i: nat, stack: seq<nat>)
    requires i < |program| && program[i] == ']' && OpenBrackets(program, i, stack) && stack != []
    ensures var left := stack[|stack| - 1];
            OpenBrackets(program, i + 1, stack[..|stack| - 1]) && left !in stack[..|stack| - 1]
              && Match(program, left, i)
  {
    var left, rest := stack[|stack| - 1], stack[..|stack| - 1];
    assert Depth(program, left) == |rest| && Depth(program, i + 1) == |rest|;
    forall k | 0 <= k < |rest|
      ensures rest[k] != left && forall j :: rest[k] < j <= i + 1 ==> Depth(program, j) > k
    {
      assert rest[k] == stack[k] && Depth(program, stack[k]) == k;
    }
    assert forall j :: left < j <= i ==> Depth(program, j) > |rest|;
  }

  lemma {:induction false} PrefixTableClose(program: string, i: nat, stack: seq<nat>, jump: map<nat, nat>)
    requires i < |program| && program[i] == ']' && OpenBrackets(program, i, stack) && stack != []
    requires PrefixTable(program, i, stack, jump)
    ensures var left := stack[|stack| - 1];
            PrefixTable(program, i + 1, stack[..|stack| - 1], jump[left := i][i := left])
  {
    OpenBracketsPop(program, i, stack);
    var left, rest := stack[|stack| - 1], stack[..|stack| - 1];
    var jump' := jump[left := i][i := left];
    assert stack == rest + [left];
    forall j | 0 <= j < i + 1 && IsBracket(program[j]) && j !in rest
      ensures Paired(program, jump', j)
    {
      if j != left && j != i {
        assert Paired(program, jump, j);
      }
    }
  }

  method BuildJump(program: string) returns (r: Result<map<nat, nat>, BracketError>)
    ensures r.Ok? <==> WellBracketed(program)
    ensures r.Ok? ==> BracketTable(program, r.value)
    ensures r.Err? ==> (r.error.UnmatchedClosing? <==> !NeverNegative(program, 0))
  {
    var jump: map<nat, nat> := map[];
    var stack: seq<nat> := [];
    for idx := 0 to |program|
      invariant OpenBrackets(program, idx, stack)
      invariant PrefixTable(program, idx, stack, jump)
      invariant forall i :: 0 <= i <= idx ==> Depth(program, i) >= 0
    {
      if program[idx] == '[' {
        OpenBracketsPush(program, idx, stack);
        stack := stack + [idx];
      } else if program[idx] == ']' {
        if stack == [] {
          assert Depth(program, idx + 1) < 0;
          return Err(UnmatchedClosing);
        }
        OpenBracketsPop(program, idx, stack);
        PrefixTableClose(program, idx, stack, jump);
        var left := stack[|stack| - 1];
        stack := stack[..|stack| - 1];
        jump := jump[left := idx][idx := left];
      }
    }
    if stack != [] {
      return Err(UnmatchedOpening);
    }
    return Ok(jump);
  }

  // The jump-table machine.

  datatype Machine = Machine(pc: nat, c: Config)

  function Target(jump: map<nat, nat>, pc: nat): nat {
    if pc in jump then jump[pc] else pc
  }

  function Step(program: string, jump: map<nat, nat>, m: Machine): Machine {
    if m.pc >= |program| then m
    else
      var op := program[m.pc];
      if op == '[' then m.(pc := (if m.c.Current() == 0 then Target(jump, m.pc) else m.pc) + 1)
      else if op == ']' then m.(pc := (if m.c.Current() != 0 then Target(jump, m.pc) else m.pc) + 1)
      else if IsCommand(op) then Machine(m.pc + 1, Do(OpOf(op), m.c))
      else m.(pc := m.pc + 1)
  }

  function Steps(program: string, jump: map<nat, nat>, n: nat, m: Machine): Machine {
    if n == 0 then m else Steps(program, jump, n - 1, Step(program, jump, m))
  }

  lemma {:induction false} StepsAdd(program: string, jump: map<nat, nat>, m: nat, n: nat, s: Machine)
    ensures Steps(program, jump, m + n, s) == Steps(program, jump, n, Steps(program, jump, m, s))
  {
    if m > 0 {
      StepsAdd(program, jump, m - 1, n, Step(program, jump, s));
    }
  }

  method Execute(program: string, jump: map<nat, nat>, data: seq<byte>, fuel: nat)
    returns (halted: bool, out: seq<byte>)
    requires BracketTable(program, jump)
    ensures var m := Steps(program, jump, fuel, Machine(0, Initial(data)));
            out == m.c.out && (halted <==> m.pc >= |program|)
  {
    var tape: Tape := map[];
    var ptr, pc, dataPos, left := 0, 0, 0, fuel;
    out := [];
    ghost var goal := Steps(program, jump, fuel, Machine(0, Initial(data)));
    while pc < |program| && left > 0
      invariant 0 <= pc && 0 <= dataPos
      invariant goal == Steps(program, jump, left, Machine(pc, Config(tape, ptr, data, dataPos, out)))
      decreases left
    {
      var op := program[pc];
      var cell := Cell(tape, ptr);
      if op == '>' {
        ptr := ptr + 1;
      } else if op == '<' {
        ptr := ptr - 1;
      } else if op == '+' {
        tape := Put(tape, ptr, (cell as int + 1) % 256);
      } else if op == '-' {
        tape := Put(tape, ptr, (cell as int + 255) % 256);
      } else if op == '.' {
        out := out + [cell];
      } else if op == ',' {
        if dataPos < |data| {
          tape := Put(tape, ptr, data[dataPos]);
          dataPos := dataPos + 1;
        } else {
          tape := Put(tape, ptr, 0);
        }
      } else if op == '[' {
        assert Paired(program, jump, pc);
        if cell == 0 { pc := jump[pc]; }
      } else if op == ']' {
        assert Paired(program, jump, pc);
        if cell != 0 { pc := jump[pc]; }
      }
      pc := pc + 1;
      left := left - 1;
    }
    HaltedStays(program, jump, left, Machine(pc, Config(tape, ptr, data, dataPos, out)));
    halted := pc >= |program|;
  }

  lemma {:induction false} HaltedStays(program: string, jump: map<nat, nat>, n: nat, m: Machine)
    ensures m.pc >= |program| || n == 0 ==> Steps(program, jump, n, m) == m
  {
    if n > 0 && m.pc >= |program| {
      HaltedStays(program, jump, n - 1, m);
    }
  }

  /** What a command leaves in the current cell. */
  function CellAfter(op: char, cell: byte, next: Option<byte>): byte {
    if op == '+' then if cell == 255 then 0 else cell + 1
    else if op == '-' then if cell == 0 then 255 else cell - 1
    else if op == ',' then if next.Some? then next.value else 0
    else cell
  }

  /** Where a bracket that is not passed leads: behind the one it is matched with. */
  ghost predicate Jumps(program: string, pc: nat, pc': nat) {
    exists other: nat :: pc' == other + 1 && (Match(program, pc, other) || Match(program, other, pc))
  }

  /** What one step does, command by command; the end of the input reads as zero, and cells are modulo 256. */
  lemma {:induction false} StepExactly(program: string, jump: map<nat, nat>, m: Machine)
    requires BracketTable(program, jump) && m.pc < |program|
    ensures var op, m' := program[m.pc], Step(program, jump, m); var c, c' := m.c, m'.c; var cell := c.Current();
            var next := if c.pos < |c.data| then Some(c.data[c.pos]) else None;
            && Cell(c'.tape, c.ptr) == CellAfter(op, cell, next)
            && (forall i :: i != c.ptr ==> Cell(c'.tape, i) == Cell(c.tape, i))
            && c'.ptr == (if op == '>' then c.ptr + 1 else if op == '<' then c.ptr - 1 else c.ptr)
            && c'.out == c.out + (if op == '.' then [cell] else [])
            && c'.data == c.data && c'.pos == (if op == ',' && next.Some? then c.pos + 1 else c.pos)
            && (if (op == '[' && cell == 0) || (op == ']' && cell != 0) then Jumps(program, m.pc, m'.pc)
                else m'.pc == m.pc + 1)
  {
    if IsBracket(program[m.pc]) { assert Paired(program, jump, m.pc); }
  }

  // Structured programs inside a program text.

  /** `p` is laid out at `off`, and the table links its brackets. */
  ghost predicate Placed(p: Prog, program: string, jump: map<nat, nat>, off: nat)
    decreases p
  {
    match p
    case End => off <= |program|
    case Prim(op, rest) => off < |program| && program[off] == Symbol(op) && Placed(rest, program, jump, off + 1)
    case Loop(body, rest) =>
      var close := off + 1 + Size(body);
      && close < |program| && program[off] == '[' && program[close] == ']'
      && off in jump && close in jump && jump[off] == close && jump[close] == off
      && Placed(body, program, jump, off + 1) && Placed(rest, program, jump, close + 1)
  }

  function CloseOf(p: Prog, off: nat): nat
    requires p.Loop?
  {
    off + 1 + Size(p.body)
  }

  /** Both brackets of a loop lead to the body when the cell is nonzero, and past the loop otherwise. */
  lemma {:induction false} LoopBrackets(p: Prog, c: Config, program: string, jump: map<nat, nat>, off: nat)
    requires p.Loop? && Placed(p, program, jump, off)
    ensures var next := Machine(if c.Current() == 0 then CloseOf(p, off) + 1 else off + 1, c);
            && Step(program, jump, Machine(off, c)) == next
            && Step(program, jump, Machine(CloseOf(p, off), c)) == next
  {
  }

  /** One iteration of a loop: enter, run the body to the closing bracket, continue as if at the opening one. */
  lemma {:induction false} LoopIteration(p: Prog, c: Config, c1: Config, n1: nat, n2: nat, program: string,
    jump: map<nat, nat>, off: nat)
    requires p.Loop? && Placed(p, program, jump, off) && c.Current() != 0
    requires Steps(program, jump, n1, Machine(off + 1, c)) == Machine(CloseOf(p, off), c1)
    ensures n2 > 0 ==> Steps(program, jump, 1 + n1 + n2, Machine(off, c)) == Steps(program, jump, n2, Machine(off, c1))
  {
    LoopBrackets(p, c, program, jump, off);
    LoopBrackets(p, c1, program, jump, off);
    if n2 > 0 {
      StepsAdd(program, jump, 1 + n1, n2, Machine(off, c));
      assert Steps(program, jump, 1 + n1, Machine(off, c)) == Machine(CloseOf(p, off), c1);
      assert Steps(program, jump, n2, Machine(CloseOf(p, off), c1)) == Steps(program, jump, n2, Machine(off, c1));
    }
  }

  /** A primitive followed by `n` steps. */
  lemma {:induction false} PrimSteps(op: Op, n: nat, c: Config, program: string, jump: map<nat, nat>, off: nat)
    requires off < |program| && program[off] == Symbol(op)
    ensures Steps(program, jump, n + 1, Machine(off, c)) == Steps(program, jump, n, Machine(off + 1, Do(op, c)))
  {
    assert OpOf(Symbol(op)) == op;
  }

  lemma {:induction false} ExecIteration(p: Prog, c: Config, fuel: nat)
    requires p.Loop? && c.Current() != 0 && Exec(p, c, fuel).Some?
    ensures fuel > 0 && Exec(p.body, c, fuel - 1).Some?
    ensures Exec(p, c, fuel) == Exec(p, Exec(p.body, c, fuel - 1).value, fuel - 1)
  {
  }

  /** A terminating structured run is followed by the machine. */
  lemma {:induction false} MachineFollows(p: Prog, c: Config, fuel: nat, program: string, jump: map<nat, nat>, off: nat)
    returns (n: nat)
    requires Placed(p, program, jump, off) && Exec(p, c, fuel).Some?
    ensures Steps(program, jump, n, Machine(off, c)) == Machine(off + Size(p), Exec(p, c, fuel).value)
    ensures p != End ==> n > 0
    decreases fuel, p, 1
  {
    if p == End {
      n := 0;
    } else if p.Prim? {
      n := MachineFollows(p.rest, Do(p.op, c), fuel, program, jump, off + 1);
      PrimSteps(p.op, n, c, program, jump, off);
      n := n + 1;
    } else {
      n := MachineFollowsLoop(p, c, fuel, program, jump, off);
    }
  }

  lemma {:induction false} MachineFollowsLoop(p: Prog, c: Config, fuel: nat, program: string, jump: map<nat, nat>,
    off: nat)
    returns (n: nat)
    requires p.Loop? && Placed(p, program, jump, off) && Exec(p, c, fuel).Some?
    ensures n > 0 && Steps(program, jump, n, Machine(off, c)) == Machine(off + Size(p), Exec(p, c, fuel).value)
    decreases fuel, p, 0
  {
    if c.Current() == 0 {
      LoopBrackets(p, c, program, jump, off);
      n := MachineFollows(p.rest, c, fuel, program, jump, CloseOf(p, off) + 1);
      n := n + 1;
    } else {
      ExecIteration(p, c, fuel);
      var c1 := Exec(p.body, c, fuel - 1).value;
      var n1 := MachineFollows(p.body, c, fuel - 1, program, jump, off + 1);
      var n2 := MachineFollows(p, c1, fuel - 1, program, jump, off);
      LoopIteration(p, c, c1, n1, n2, program, jump, off);
      n := 1 + n1 + n2;
    }
  }

  /** A halting machine run passes through the end of every block it enters, in the structured result. */
  lemma {:induction false} RunIsStructured(p: Prog, c: Config, n: nat, program: string, jump: map<nat, nat>, off: nat)
    returns (k: nat, fuel: nat)
    requires Placed(p, program, jump, off)
    requires Steps(program, jump, n, Machine(off, c)).pc >= |program|
    ensures k <= n && Exec(p, c, fuel).Some?
    ensures Steps(program, jump, k, Machine(off, c)) == Machine(off + Size(p), Exec(p, c, fuel).value)
    ensures p != End ==> k > 0
    decreases n, p, 1
  {
    if p == End {
      k, fuel := 0, 0;
    } else if p.Prim? {
      PrimSteps(p.op, n - 1, c, program, jump, off);
      k, fuel := RunIsStructured(p.rest, Do(p.op, c), n - 1, program, jump, off + 1);
      PrimSteps(p.op, k, c, program, jump, off);
      k := k + 1;
    } else if c.Current() == 0 {
      LoopBrackets(p, c, program, jump, off);
      k, fuel := RunIsStructured(p.rest, c, n - 1, program, jump, CloseOf(p, off) + 1);
      k := k + 1;
    } else {
      k, fuel := IterationIsStructured(p, c, n, program, jump, off);
    }
  }

  lemma {:induction false} IterationIsStructured(p: Prog, c: Config, n: nat, program: string, jump: map<nat, nat>,
    off: nat)
    returns (k: nat, fuel: nat)
    requires p.Loop? && Placed(p, program, jump, off) && n > 0 && c.Current() != 0
    requires Steps(program, jump, n, Machine(off, c)).pc >= |program|
    ensures 0 < k <= n && Exec(p, c, fuel).Some?
    ensures Steps(program, jump, k, Machine(off, c)) == Machine(off + Size(p), Exec(p, c, fuel).value)
    decreases n, p, 0
  {
    var k1, f1 := BodyIsStructured(p, c, n, program, jump, off);
    var c1 := Exec(p.body, c, f1).value;
    var k2, f2 := RunIsStructured(p, c1, n - 1 - k1, program, jump, off);
    LoopIteration(p, c, c1, k1, k2, program, jump, off);
    fuel := ExecIterationJoins(p, c, f1, f2);
    k := 1 + k1 + k2;
  }

  /** The first iteration of a halting loop run ends at the closing bracket, with the rest of the run ahead. */
  lemma {:induction false} BodyIsStructured(p: Prog, c: Config, n: nat, program: string, jump: map<nat, nat>, off: nat)
    returns (k1: nat, f1: nat)
    requires p.Loop? && Placed(p, program, jump, off) && n > 0 && c.Current() != 0
    requires Steps(program, jump, n, Machine(off, c)).pc >= |program|
    ensures k1 + 1 < n && Exec(p.body, c, f1).Some?
    ensures var c1 := Exec(p.body, c, f1).value;
            && Steps(program, jump, k1, Machine(off + 1, c)) == Machine(CloseOf(p, off), c1)
            && Steps(program, jump, n - 1 - k1, Machine(off, c1)).pc >= |program|
    decreases n, p.body, 2
  {
    LoopBrackets(p, c, program, jump, off);
    k1, f1 := RunIsStructured(p.body, c, n - 1, program, jump, off + 1);
    BodySteps(p, c, Exec(p.body, c, f1).value, n, k1, program, jump, off);
  }

  /** Behind the body, the rest of a halting run starts over at the loop. */
  lemma {:induction false} BodySteps(p: Prog, c: Config, c1: Config, n: nat, k1: nat, program: string,
    jump: map<nat, nat>, off: nat)
    requires p.Loop? && Placed(p, program, jump, off) && c.Current() != 0 && k1 < n
    requires Steps(program, jump, k1, Machine(off + 1, c)) == Machine(CloseOf(p, off), c1)
    requires Steps(program, jump, n, Machine(off, c)).pc >= |program|
    ensures k1 + 1 < n && Steps(program, jump, n - 1 - k1, Machine(off, c1)).pc >= |program|
  {
    LoopBrackets(p, c, program, jump, off);
    StepsAdd(program, jump, k1, n - 1 - k1, Machine(off + 1, c));
    LoopIteration(p, c, c1, k1, n - 1 - k1, program, jump, off);
  }

  lemma {:induction false} ExecIterationJoins(p: Prog, c: Config, f1: nat, f2: nat) returns (fuel: nat)
    requires p.Loop? && c.Current() != 0 && Exec(p.body, c, f1).Some? && Exec(p, Exec(p.body, c, f1).value, f2).Some?
    ensures Exec(p, c, fuel) == Exec(p, Exec(p.body, c, f1).value, f2)
  {
    var f := if f1 > f2 then f1 else f2;
    MoreFuel(p.body, c, f1, f);
    MoreFuel(p, Exec(p.body, c, f1).value, f2, f);
    fuel := f + 1;
  }

  ghost predicate Halts(program: string, jump: map<nat, nat>, c: Config, c': Config) {
    exists n: nat, pc: nat :: Steps(program, jump, n, Machine(0, c)) == Machine(pc, c') && pc >= |program|
  }

  /**
   Main result for a laid-out program: the machine halts in c' exactly when the
   structured semantics terminates in c'; so one diverges exactly when the other does.
   */
  lemma {:induction false} MachineMeetsStructure(p: Prog, program: string, jump: map<nat, nat>, c: Config, c': Config)
    requires Placed(p, program, jump, 0) && Size(p) == |program|
    ensures Halts(program, jump, c, c') <==> Runs(p, c, c')
  {
    if Runs(p, c, c') {
      var fuel: nat :| Exec(p, c, fuel) == Some(c');
      var n := MachineFollows(p, c, fuel, program, jump, 0);
      assert Steps(program, jump, n, Machine(0, c)) == Machine(|program|, c');
    }
    if Halts(program, jump, c, c') {
      var n: nat, pc: nat :| Steps(program, jump, n, Machine(0, c)) == Machine(pc, c') && pc >= |program|;
      var k, fuel := RunIsStructured(p, c, n, program, jump, 0);
      var c1 := Exec(p, c, fuel).value;
      StepsAdd(program, jump, k, n - k, Machine(0, c));
      HaltedStays(program, jump, n - k, Machine(|program|, c1));
      assert c1 == c';
    }
  }

  ghost predicate Level(program: string, lo: nat, hi: nat) {
    && lo <= hi <= |program|
    && Depth(program, hi) == Depth(program, lo)
    && forall j :: lo <= j <= hi ==> Depth(program, j) >= Depth(program, lo)
  }

  /** The structure of a bracket-level stretch of commands, read off the jump table. */
  function Tree(program: string, jump: map<nat, nat>, lo: nat, hi: nat): (p: Prog)
    requires BracketTable(program, jump) && Level(program, lo, hi)
    requires forall j :: lo <= j < hi ==> IsCommand(program[j])
    ensures Placed(p, program, jump, lo) && Size(p) == hi - lo
    decreases hi - lo
  {
    if lo == hi then End
    else if program[lo] == '[' then
      assert Paired(program, jump, lo);
      var close := jump[lo];
      assert Depth(program, lo + 1) == Depth(program, lo) + 1;
      assert Match(program, lo, close);
      assert Depth(program, close) == Depth(program, close + 1) + 1;
      assert close < hi;
      Loop(Tree(program, jump, lo + 1, close), Tree(program, jump, close + 1, hi))
    else
      assert Depth(program, lo + 1) >= Depth(program, lo);
      Prim(OpOf(program[lo]), Tree(program, jump, lo + 1, hi))
  }

  /** The interpreter agrees with the structured semantics on every program it accepts. */
  lemma {:induction false} InterpreterMeetsStructure(program: string, jump: map<nat, nat>, c: Config, c': Config)
    requires WellBracketed(program) && BracketTable(program, jump)
    requires forall ch :: ch in program ==> IsCommand(ch)
    ensures Level(program, 0, |program|)
    ensures Halts(program, jump, c, c') <==> Runs(Tree(program, jump, 0, |program|), c, c')
  {
    MachineMeetsStructure(Tree(program, jump, 0, |program|), program, jump, c, c');
  }

  // The text of a structured program determines its layout.

  ghost predicate TextAt(program: string, off: nat, text: string) {
    && off + |text| <= |program|
    && forall i :: 0 <= i < |text| ==> program[off + i] == text[i]
  }

  lemma {:induction false} AtSplit(program: string, off: nat, a: string, b: string)
    requires TextAt(program, off, a + b)
    ensures TextAt(program, off, a) && TextAt(program, off + |a|, b)
  {
    forall i | 0 <= i < |a| ensures program[off + i] == a[i] { assert a[i] == (a + b)[i]; }
    forall i | 0 <= i < |b| ensures program[off + |a| + i] == b[i] { assert b[i] == (a + b)[|a| + i]; }
  }

  lemma {:induction false} AtPrim(program: string, off: nat, op: Op, rest: Prog)
    requires TextAt(program, off, Flat(Prim(op, rest)))
    ensures off < |program| && program[off] == Symbol(op) && TextAt(program, off + 1, Flat(rest))
  {
    AtSplit(program, off, [Symbol(op)], Flat(rest));
    assert program[off + 0] == [Symbol(op)][0];
  }

  lemma {:induction false} AtLoop(program: string, off: nat, body: Prog, rest: Prog)
    requires TextAt(program, off, Flat(Loop(body, rest)))
    ensures var close := off + 1 + Size(body);
            && close < |program| && program[off] == '[' && program[close] == ']'
            && TextAt(program, off + 1, Flat(body)) && TextAt(program, close + 1, Flat(rest))
  {
    var b, r := Flat(body), Flat(rest);
    AtSplit(program, off, "[" + b + "]", r);
    AtSplit(program, off, "[" + b, "]");
    AtSplit(program, off, "[", b);
    assert program[off + 0] == "["[0];
    assert program[off + 1 + |b| + 0] == "]"[0];
  }

  lemma {:induction false} LevelPrim(program: string, off: nat, hi: nat)
    requires off < hi <= |program| && !IsBracket(program[off]) && Level(program, off + 1, hi)
    ensures Level(program, off, hi)
  {
    assert Depth(program, off + 1) == Depth(program, off);
  }

  lemma {:induction false} LevelLoop(program: string, off: nat, close: nat, hi: nat)
    requires off < close < hi <= |program| && program[off] == '[' && program[close] == ']'
    requires Level(program, off + 1, close) && Level(program, close + 1, hi)
    ensures Level(program, off, hi)
  {
    assert Depth(program, off + 1) == Depth(program, off) + 1;
    assert Depth(program, close + 1) == Depth(program, close) - 1;
  }

  /** The structure's commands and brackets stand at these places of the text. */
  predicate Laid(p: Prog, program: string, off: nat) {
    match p
    case End => off <= |program|
    case Prim(op, rest) => off < |program| && program[off] == Symbol(op) && Laid(rest, program, off + 1)
    case Loop(body, rest) =>
      var close := off + 1 + Size(body);
      && close < |program| && program[off] == '[' && program[close] == ']'
      && Laid(body, program, off + 1) && Laid(rest, program, close + 1)
  }

  lemma {:induction false} TextIsLaid(p: Prog, program: string, off: nat)
    requires TextAt(program, off, Flat(p))
    ensures Laid(p, program, off)
    decreases p
  {
    match p
    case End =>
    case Prim(op, rest) =>
      AtPrim(program, off, op, rest);
      TextIsLaid(rest, program, off + 1);
    case Loop(body, rest) =>
      AtLoop(program, off, body, rest);
      TextIsLaid(body, program, off + 1);
      TextIsLaid(rest, program, off + 2 + Size(body));
  }

  lemma {:induction false} DepthAcross(p: Prog, program: string, off: nat)
    requires Laid(p, program, off)
    ensures Level(program, off, off + Size(p))
    decreases p
  {
    match p
    case End =>
    case Prim(op, rest) =>
      DepthAcross(rest, program, off + 1);
      LevelPrim(program, off, off + Size(p));
    case Loop(body, rest) =>
      DepthAcross(body, program, off + 1);
      DepthAcross(rest, program, off + 2 + Size(body));
      LevelLoop(program, off, off + 1 + Size(body), off + Size(p));
  }

  lemma {:induction false} LaidIsPlaced(p: Prog, program: string, jump: map<nat, nat>, off: nat)
    requires BracketTable(program, jump) && Laid(p, program, off)
    ensures Placed(p, program, jump, off)
    decreases p
  {
    match p
    case End =>
    case Prim(op, rest) => LaidIsPlaced(rest, program, jump, off + 1);
    case Loop(body, rest) =>
      var close := off + 1 + Size(body);
      LaidIsPlaced(body, program, jump, off + 1);
      LaidIsPlaced(rest, program, jump, close + 1);
      BracketsAreMatched(body, program, jump, off, close);
  }

  lemma {:induction false} BracketsAreMatched(body: Prog, program: string, jump: map<nat, nat>, off: nat, close: nat)
    requires BracketTable(program, jump) && Laid(body, program, off + 1)
    requires close == off + 1 + Size(body) < |program| && program[off] == '[' && program[close] == ']'
    ensures off in jump && close in jump && jump[off] == close && jump[close] == off
  {
    DepthAcross(body, program, off + 1);
    MatchIsUnique(program, jump, off, close);
  }

  lemma {:induction false} TextIsPlaced(p: Prog, program: string, jump: map<nat, nat>, off: nat)
    requires BracketTable(program, jump) && TextAt(program, off, Flat(p))
    ensures Placed(p, program, jump, off)
  {
    TextIsLaid(p, program, off);
    LaidIsPlaced(p, program, jump, off);
  }

  lemma {:induction false} MatchIsUnique(program: string, jump: map<nat, nat>, l: nat, r: nat)
    requires BracketTable(program, jump)
    requires l < r < |program| && program[l] == '[' && program[r] == ']' && Level(program, l + 1, r)
    ensures l in jump && r in jump && jump[l] == r && jump[r] == l
  {
    assert Paired(program, jump, l);
    assert Depth(program, l + 1) == Depth(program, l) + 1;
    assert Depth(program, r + 1) == Depth(program, r) - 1;
    assert Match(program, l, r);
    var close := jump[l];
    assert Match(program, l, close);
    if close < r {
      assert false;
    } else if r < close {
      assert false;
    }
  }
}
