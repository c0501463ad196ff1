/**
 The Malbolge interpreter of scripts/malbolge.py: the crazy operation, the
 loader with the compile-time check of internal/compile/script_compilers.go, and
 the self-modifying machine.
 */
module Malbolge {
  import opened Common

  const MEMORY_SIZE := 59049

  type Word = n: nat | n < MEMORY_SIZE

  // The tables, in pieces short enough to be checked character by character.
  const XLAT1_0 := "+b(29e*j1VMEKLyC"
  const XLAT1_1 := "})8&m#~W>qxdRp0w"
  const XLAT1_2 := "krUo[D7,XTcA\"lI."
  const XLAT1_3 := "v%{gJh4G\\-=O@5`_"
  const XLAT1_4 := "3i<?Z';FNQuY]szf"
  const XLAT1_5 := "$!BS/|t:Pn6^Ha"
  const XLAT1 := XLAT1_0 + XLAT1_1 + XLAT1_2 + XLAT1_3 + XLAT1_4 + XLAT1_5
  const XLAT2_0 := "5z]&gqtyfr$(we4{"
  const XLAT2_1 := "WP)H-Zn,[%\\3dL+Q"
  const XLAT2_2 := ";>U!pJS72FhOA1CB"
  const XLAT2_3 := "6v^=I_0/8|jsb9m<"
  const XLAT2_4 := ".TVac`uY*MK'X~xD"
  const XLAT2_5 := "l}REokN:#?G\"i@"
  const XLAT2 := XLAT2_0 + XLAT2_1 + XLAT2_2 + XLAT2_3 + XLAT2_4 + XLAT2_5

  // The crazy operation.

  const CRAZY_TABLE: seq<seq<nat>> :=
    [[4, 3, 3, 1, 0, 0, 1, 0, 0],
     [4, 3, 5, 1, 0, 2, 1, 0, 2],
     [5, 5, 4, 2, 2, 1, 2, 2, 1],
     [4, 3, 3, 1, 0, 0, 7, 6, 6],
     [4, 3, 5, 1, 0, 2, 7, 6, 8],
     [5, 5, 4, 2, 2, 1, 8, 8, 7],
     [7, 6, 6, 7, 6, 6, 4, 3, 3],
     [7, 6, 8, 7, 6, 8, 4, 3, 5],
     [8, 8, 7, 8, 8, 7, 5, 5, 4]]

  /** The table's entry for two pairs of trits. */
  function Nonit(x: nat, y: nat): nat
    requires x < 9 && y < 9
  {
    CRAZY_TABLE[y][x]
  }

  function Crazy(x: nat, y: nat): nat {
    Nonit(x % 9, y % 9)
    + Nonit(x / 9 % 9, y / 9 % 9) * 9
    + Nonit(x / 81 % 9, y / 81 % 9) * 81
    + Nonit(x / 729 % 9, y / 729 % 9) * 729
    + Nonit(x / 6561 % 9, y / 6561 % 9) * 6561
  }

  const POWERS_OF_NINE := [1, 9, 81, 729, 6561]

  method ComputeCrazy(x: nat, y: nat) returns (result: nat)
    ensures result == Crazy(x, y)
  {
    result := 0;
    for k := 0 to 5
      invariant k == 0 ==> result == 0
      invariant k == 1 ==> result == Nonit(x % 9, y % 9)
      invariant k == 2 ==> result == Nonit(x % 9, y % 9) + Nonit(x / 9 % 9, y / 9 % 9) * 9
      invariant k == 3 ==>
        result == Nonit(x % 9, y % 9) + Nonit(x / 9 % 9, y / 9 % 9) * 9 + Nonit(x / 81 % 9, y / 81 % 9) * 81
      invariant k == 4 ==>
        result == Nonit(x % 9, y % 9) + Nonit(x / 9 % 9, y / 9 % 9) * 9 + Nonit(x / 81 % 9, y / 81 % 9) * 81
                                     + Nonit(x / 729 % 9, y / 729 % 9) * 729
      invariant k == 5 ==> result == Crazy(x, y)
    {
      var power := POWERS_OF_NINE[k];
      result := result + Nonit(x / power % 9, y / power % 9) * power;
    }
  }

  /** The operation on single trits, as the Malbolge specification tabulates it. */
  function TritOp(x: nat, y: nat): nat
    requires x < 3 && y < 3
  {
    [[1, 0, 0], [1, 0, 2], [2, 2, 1]][y][x]
  }

  function Trit(n: nat, k: nat): (t: nat)
    ensures t < 3
  {
    if k == 0 then n % 3 else Trit(n / 3, k - 1)
  }

  lemma {:induction false} NonitIsTwoTrits(x: nat, y: nat)
    requires x < 9 && y < 9
    ensures Nonit(x, y) < 9
    ensures Nonit(x, y) % 3 == TritOp(x % 3, y % 3) && Nonit(x, y) / 3 == TritOp(x / 3, y / 3)
  {
  }

  /** The tail of the sum, read two trits at a time. */
  function CrazyTail(x: nat, y: nat, pairs: nat): nat {
    if pairs == 0 then 0 else Nonit(x % 9, y % 9) + 9 * CrazyTail(x / 9, y / 9, pairs - 1)
  }

  lemma {:induction false} CrazyIsTail(x: nat, y: nat)
    ensures Crazy(x, y) == CrazyTail(x, y, 5)
  {
    DivDiv(x);
    DivDiv(y);
    assert CrazyTail(x / 6561, y / 6561, 1) == Nonit(x / 6561 % 9, y / 6561 % 9);
    assert CrazyTail(x / 729, y / 729, 2) == Nonit(x / 729 % 9, y / 729 % 9) + 9 * CrazyTail(x / 6561, y / 6561, 1);
    assert CrazyTail(x / 81, y / 81, 3) == Nonit(x / 81 % 9, y / 81 % 9) + 9 * CrazyTail(x / 729, y / 729, 2);
    assert CrazyTail(x / 9, y / 9, 4) == Nonit(x / 9 % 9, y / 9 % 9) + 9 * CrazyTail(x / 81, y / 81, 3);
  }

  lemma {:induction false} DivDiv(n: nat)
    ensures n / 9 / 9 == n / 81 && n / 81 / 9 == n / 729 && n / 729 / 9 == n / 6561
  {
  }

  lemma {:induction false} TwoTritsDown(n: nat)
    ensures n % 9 % 3 == n % 3 && n % 9 / 3 == n / 3 % 3 && n / 3 / 3 == n / 9
  {
  }

  lemma {:induction false} TritOfThird(n: nat, k: nat)
    requires k >= 2
    ensures Trit(n, k) == Trit(n / 9, k - 2)
  {
    assert Trit(n, k) == Trit(n / 3, k - 1);
    TwoTritsDown(n);
  }

  /** The tail begins with the two trits of its first pair. */
  lemma {:induction false} TailSplits(low: nat, high: nat)
    requires low < 9
    ensures var n := low + 9 * high; n % 3 == low % 3 && n / 3 % 3 == low / 3 && n / 9 == high
  {
    var n := low + 9 * high;
    DivModUnique(n, 9, high, low);
    DivModUnique(n, 3, 3 * high + low / 3, low % 3);
    DivModUnique(n / 3, 3, high, low / 3);
  }

  lemma {:induction false} TailIsTritwise(x: nat, y: nat, pairs: nat, k: nat)
    requires k < 2 * pairs
    ensures Trit(CrazyTail(x, y, pairs), k) == TritOp(Trit(x, k), Trit(y, k))
  {
    var low := Nonit(x % 9, y % 9);
    var n := CrazyTail(x, y, pairs);
    NonitIsTwoTrits(x % 9, y % 9);
    TailSplits(low, CrazyTail(x / 9, y / 9, pairs - 1));
    if k >= 2 {
      TailIsTritwise(x / 9, y / 9, pairs - 1, k - 2);
      TritOfThird(n, k);
      TritOfThird(x, k);
      TritOfThird(y, k);
    } else {
      TwoTritsDown(x);
      TwoTritsDown(y);
      assert Trit(n, 1) == Trit(n / 3, 0) && Trit(x, 1) == Trit(x / 3, 0) && Trit(y, 1) == Trit(y / 3, 0);
    }
  }

  /** `crazy` is the trit operation on each of the ten trits. */
  lemma {:induction false} CrazyIsTritwise(x: nat, y: nat, k: nat)
    requires k < 10
    ensures Trit(Crazy(x, y), k) == TritOp(Trit(x, k), Trit(y, k))
  {
    CrazyIsTail(x, y);
    TailIsTritwise(x, y, 5, k);
  }

  lemma {:induction false} CrazyInRange(x: nat, y: nat)
    ensures Crazy(x, y) < MEMORY_SIZE
  {
    NonitIsTwoTrits(x % 9, y % 9);
    NonitIsTwoTrits(x / 9 % 9, y / 9 % 9);
    NonitIsTwoTrits(x / 81 % 9, y / 81 % 9);
    NonitIsTwoTrits(x / 729 % 9, y / 729 % 9);
    NonitIsTwoTrits(x / 6561 % 9, y / 6561 % 9);
  }

  // Rotation.

  function Rotate(n: Word): Word {
    n / 3 + n % 3 * 19683
  }

  function Rotations(k: nat, n: Word): Word {
    if k == 0 then n else Rotate(Rotations(k - 1, n))
  }

  function Pow3(k: nat): (p: nat)
    ensures p > 0
  {
    if k == 0 then 1 else 3 * Pow3(k - 1)
  }

  /** After k rotations the low k trits have moved to the top. */
  lemma {:induction false} RotationsMoveTrits(k: nat, n: Word)
    requires k <= 10
    ensures Rotations(k, n) == n / Pow3(k) + n % Pow3(k) * Pow3(10 - k)
  {
    if k == 0 {
      assert Pow3(0) == 1;
    } else {
      RotationsMoveTrits(k - 1, n);
      RotateStep(n, k - 1);
    }
  }

  lemma {:induction false} RotateStep(n: Word, k: nat)
    requires k < 10
    ensures var m := n / Pow3(k) + n % Pow3(k) * Pow3(10 - k);
            m / 3 + m % 3 * 19683 == n / Pow3(k + 1) + n % Pow3(k + 1) * Pow3(9 - k)
  {
    var p, q := Pow3(k), Pow3(9 - k);
    PowersSplit(k);
    var high, r := n / p, n % p;
    LowTritOut(high, r, q);
    NextDigits(n, p);
    RaisedTrit(p, high % 3, r, q);
  }

  lemma {:induction false} LowTritOut(high: nat, r: nat, q: nat)
    ensures var m := high + r * (3 * q); m / 3 == high / 3 + r * q && m % 3 == high % 3
  {
    assert r * (3 * q) == 3 * (r * q);
  }

  lemma {:induction false} NextDigits(n: nat, p: nat)
    requires p > 0
    ensures n / (3 * p) == n / p / 3 && n % (3 * p) == p * (n / p % 3) + n % p
  {
    var high, r := n / p, n % p;
    Expand(n, p, high, r, high / 3, high % 3);
    DivModUnique(n, 3 * p, high / 3, p * (high % 3) + r);
  }

  lemma {:induction false} Expand(n: nat, p: nat, high: nat, r: nat, top: nat, t: nat)
    requires p > 0 && n == p * high + r && r < p && high == 3 * top + t && t < 3
    ensures n == 3 * p * top + (p * t + r) && p * t + r < 3 * p
  {
    MulMonotone(t, 2, p);
    assert p * (3 * top + t) == 3 * p * top + p * t;
  }

  lemma {:induction false} RaisedTrit(p: nat, t: nat, r: nat, q: nat)
    requires p * q == 19683
    ensures (p * t + r) * q == t * 19683 + r * q
  {
    assert p * t * q == t * (p * q);
  }

  lemma {:induction false} PowersSplit(k: nat)
    requires k <= 9
    ensures Pow3(k) * Pow3(9 - k) == 19683
  {
    if k == 0 {
      assert Pow3(9) == 3 * Pow3(8) && Pow3(8) == 3 * Pow3(7) && Pow3(7) == 3 * Pow3(6) && Pow3(6) == 3 * Pow3(5);
      assert Pow3(5) == 3 * Pow3(4) && Pow3(4) == 3 * Pow3(3) && Pow3(3) == 27;
    } else {
      PowersSplit(k - 1);
      assert Pow3(k) == 3 * Pow3(k - 1) && Pow3(9 - (k - 1)) == 3 * Pow3(9 - k);
      assert Pow3(k - 1) * (3 * Pow3(9 - k)) == (3 * Pow3(k - 1)) * Pow3(9 - k);
    }
  }

  lemma {:induction false} MulMonotone(a: nat, b: nat, c: nat)
    requires a <= b
    ensures c * a <= c * b
  {
  }

  lemma {:induction false} DivModUnique(n: nat, d: nat, q: nat, r: nat)
    requires d > 0 && r < d && n == d * q + r
    ensures n / d == q && n % d == r
  {
    var q' := n / d;
    assert n == d * q' + n % d;
    if q' < q {
      MulMonotone(q' + 1, q, d);
    } else if q < q' {
      MulMonotone(q + 1, q', d);
    }
  }

  /** Ten rotations restore every word. */
  lemma {:induction false} TenRotations(n: Word)
    ensures Rotations(10, n) == n
  {
    RotationsMoveTrits(10, n);
    TenPowers();
    DivModUnique(n, 59049, 0, n);
  }

  lemma {:induction false} TenPowers()
    ensures Pow3(0) == 1 && Pow3(10) == 59049
  {
    PowersSplit(9);
    assert Pow3(10) == 3 * Pow3(9);
  }

  // Loading.

  datatype LoadError = TooLong | NonGraphical(offset: nat) | InvalidOpcode(instruction: nat) | TooShort

  predicate IsSpace(b: byte) {
    b == 32 || 9 <= b <= 13
  }

  predicate Graphical(n: nat) {
    33 <= n <= 126
  }

  predicate ValidOpcode(ch: char) {
    ch == 'j' || ch == 'i' || ch == '*' || ch == 'p' || ch == '<' || ch == '/' || ch == 'v' || ch == 'o'
  }

  lemma {:induction false} Tables()
    ensures |XLAT1| == 94 && |XLAT2| == 94
  {
  }

  function OpcodeAt(n: nat, position: nat): char
    requires Graphical(n)
  {
    Tables();
    XLAT1[(n - 33 + position) % 94]
  }

  /** The instructions of the source from `offset` on, after `memory`. */
  function LoadFrom(data: seq<byte>, offset: nat, memory: seq<Word>): Result<seq<Word>, LoadError>
    requires offset <= |data|
    decreases |data| - offset
  {
    if offset == |data| then
      if |memory| < 2 then Err(TooShort) else Ok(memory)
    else if IsSpace(data[offset]) then LoadFrom(data, offset + 1, memory)
    else if |memory| >= MEMORY_SIZE then Err(TooLong)
    else if !Graphical(data[offset]) then Err(NonGraphical(offset))
    else if !ValidOpcode(OpcodeAt(data[offset], |memory|)) then Err(InvalidOpcode(|memory|))
    else LoadFrom(data, offset + 1, memory + [data[offset]])
  }

  function CrazyWord(x: nat, y: nat): Word {
    CrazyInRange(x, y);
    Crazy(x, y)
  }

  /** Fills the memory by applying the crazy operation to the last two cells. */
  function Fill(memory: seq<Word>): (full: seq<Word>)
    requires 2 <= |memory| <= MEMORY_SIZE
    ensures |full| == MEMORY_SIZE && memory <= full
    decreases MEMORY_SIZE - |memory|
  {
    if |memory| == MEMORY_SIZE then memory
    else Fill(memory + [CrazyWord(memory[|memory| - 1], memory[|memory| - 2])])
  }

  lemma {:induction false} LoadedSize(data: seq<byte>, offset: nat, memory: seq<Word>)
    requires offset <= |data| && |memory| <= MEMORY_SIZE
    ensures LoadFrom(data, offset, memory).Ok? ==> 2 <= |LoadFrom(data, offset, memory).value| <= MEMORY_SIZE
    decreases |data| - offset
  {
    if offset < |data| {
      if IsSpace(data[offset]) {
        LoadedSize(data, offset + 1, memory);
      } else if |memory| < MEMORY_SIZE && Graphical(data[offset]) && ValidOpcode(OpcodeAt(data[offset], |memory|)) {
        LoadedSize(data, offset + 1, memory + [data[offset]]);
      }
    }
  }

  method LoadProgram(data: seq<byte>) returns (r: Result<seq<Word>, LoadError>)
    ensures match LoadFrom(data, 0, [])
            case Err(e) => r == Err(e)
            case Ok(instructions) =>
              r.Ok? && |r.value| == MEMORY_SIZE && 2 <= |instructions| <= MEMORY_SIZE && r.value == Fill(instructions)
  {
    LoadedSize(data, 0, []);
    var memory: seq<Word> := [];
    for offset := 0 to |data|
      invariant |memory| <= MEMORY_SIZE
      invariant LoadFrom(data, 0, []) == LoadFrom(data, offset, memory)
    {
      var b := data[offset];
      if IsSpace(b) { continue; }
      var position := |memory|;
      if position >= MEMORY_SIZE { return Err(TooLong); }
      if !Graphical(b) { return Err(NonGraphical(offset)); }
      if !ValidOpcode(OpcodeAt(b, position)) { return Err(InvalidOpcode(position)); }
      memory := memory + [b];
    }
    if |memory| < 2 { return Err(TooShort); }
    ghost var instructions := memory;
    while |memory| < MEMORY_SIZE
      invariant 2 <= |memory| <= MEMORY_SIZE && Fill(instructions) == Fill(memory)
    {
      memory := memory + [CrazyWord(memory[|memory| - 1], memory[|memory| - 2])];
    }
    return Ok(memory);
  }

  // The compile-time check.

  function CheckFrom(data: seq<byte>, offset: nat, position: nat): Option<LoadError>
    requires offset <= |data|
    decreases |data| - offset
  {
    if offset == |data| then
      if position < 2 then Some(TooShort) else None
    else if IsSpace(data[offset]) then CheckFrom(data, offset + 1, position)
    else if position >= MEMORY_SIZE then Some(TooLong)
    else if data[offset] < 33 || data[offset] > 126 then Some(NonGraphical(offset))
    else if !ValidOpcode(OpcodeAt(data[offset], position)) then Some(InvalidOpcode(position))
    else CheckFrom(data, offset + 1, position + 1)
  }

  method CheckMalbolge(data: seq<byte>) returns (problem: Option<LoadError>)
    ensures problem == CheckFrom(data, 0, 0)
  {
    var position := 0;
    for offset := 0 to |data|
      invariant position >= 0 && CheckFrom(data, 0, 0) == CheckFrom(data, offset, position)
    {
      var b := data[offset];
      if IsSpace(b) { continue; }
      if position >= MEMORY_SIZE { return Some(TooLong); }
      if b < 33 || b > 126 { return Some(NonGraphical(offset)); }
      if !ValidOpcode(OpcodeAt(b, position)) { return Some(InvalidOpcode(position)); }
      position := position + 1;
    }
    return if position < 2 then Some(TooShort) else None;
  }

  lemma {:induction false} CheckFollowsLoader(data: seq<byte>, offset: nat, memory: seq<Word>)
    requires offset <= |data|
    ensures CheckFrom(data, offset, |memory|) ==
      match LoadFrom(data, offset, memory) { case Ok(_) => None case Err(e) => Some(e) }
    decreases |data| - offset
  {
    if offset < |data| {
      if IsSpace(data[offset]) {
        CheckFollowsLoader(data, offset + 1, memory);
      } else if |memory| < MEMORY_SIZE && Graphical(data[offset]) && ValidOpcode(OpcodeAt(data[offset], |memory|)) {
        CheckFollowsLoader(data, offset + 1, memory + [data[offset]]);
      }
    }
  }

  /** The check reports exactly the error the loader would raise, and none when the source loads. */
  lemma {:induction false} CheckAgreesWithLoader(data: seq<byte>)
    ensures CheckFrom(data, 0, 0) == match LoadFrom(data, 0, []) { case Ok(_) => None case Err(e) => Some(e) }
  {
    CheckFollowsLoader(data, 0, []);
  }

  // Execution.

  datatype State = State(
    memory: seq<Word>, accumulator: nat, code: nat, data: nat, input: seq<byte>, pos: nat, out: seq<byte>, halted: bool)

  /** Every cell and both pointers stay inside the memory, and so does the accumulator. */
  predicate InRange(s: State) {
    |s.memory| == MEMORY_SIZE && s.accumulator < MEMORY_SIZE && s.code < MEMORY_SIZE && s.data < MEMORY_SIZE
  }

  /** The effect of one decoded instruction, before encryption. */
  function Perform(opcode: char, s: State): (s': State)
    requires InRange(s)
    ensures InRange(s')
  {
    var cell := s.memory[s.data];
    if opcode == 'j' then s.(data := cell)
    else if opcode == 'i' then s.(code := cell)
    else if opcode == '*' then s.(memory := s.memory[s.data := Rotate(cell)], accumulator := Rotate(cell))
    else if opcode == 'p' then
      var w := CrazyWord(s.accumulator, cell);
      s.(memory := s.memory[s.data := w], accumulator := w)
    else if opcode == '<' then s.(out := s.out + [s.accumulator % 256])
    else if opcode == '/' then
      if s.pos < |s.input| then s.(accumulator := s.input[s.pos], pos := s.pos + 1)
      else s.(accumulator := MEMORY_SIZE - 1)
    else s
  }

  function Encrypted(n: nat): (w: Word)
    requires Graphical(n)
    ensures Graphical(w)
  {
    Tables();
    EncryptionIsGraphical(n - 33);
    XLAT2[n - 33] as int
  }

  predicate AllGraphical(s: string) {
    forall i :: 0 <= i < |s| ==> Graphical(s[i] as int)
  }

  lemma {:induction false} EncryptionIsGraphical(i: nat)
    requires i < 94
    ensures i < |XLAT2| && Graphical(XLAT2[i] as int)
  {
    assert AllGraphical(XLAT2_0);
    assert AllGraphical(XLAT2_1);
    assert AllGraphical(XLAT2_2);
    assert AllGraphical(XLAT2_3);
    assert AllGraphical(XLAT2_4);
    assert AllGraphical(XLAT2_5);
    assert AllGraphical(XLAT2);
  }

  function Step(s: State): (s': State)
    requires InRange(s)
    ensures InRange(s')
  {
    if s.halted || !Graphical(s.memory[s.code]) then s.(halted := true)
    else
      var opcode := OpcodeAt(s.memory[s.code], s.code);
      if opcode == 'v' then s.(halted := true)
      else
        var t := Perform(opcode, s);
        if !Graphical(t.memory[t.code]) then t.(halted := true)
        else t.(memory := t.memory[t.code := Encrypted(t.memory[t.code])],
                code := (t.code + 1) % MEMORY_SIZE, data := (t.data + 1) % MEMORY_SIZE)
  }

  function Steps(n: nat, s: State): (s': State)
    requires InRange(s)
    ensures InRange(s')
  {
    if n == 0 then s else Steps(n - 1, Step(s))
  }

  lemma {:induction false} HaltedStays(n: nat, s: State)
    requires InRange(s) && s.halted
    ensures Steps(n, s) == s
  {
    if n > 0 { HaltedStays(n - 1, s); }
  }

  /** One decoded instruction on the memory in place. */
  method PerformInPlace(opcode: char, memory: array<Word>, ghost s: State, a: Word, c: Word, d: Word, input: seq<byte>,
    pos: nat, out: seq<byte>)
    returns (a': Word, c': Word, d': Word, pos': nat, out': seq<byte>)
    requires InRange(s) && s == State(memory[..], a, c, d, input, pos, out, false)
    modifies memory
    ensures Perform(opcode, s) == State(memory[..], a', c', d', input, pos', out', false)
  {
    a', c', d', pos', out' := a, c, d, pos, out;
    if opcode == 'j' {
      d' := memory[d];
    } else if opcode == 'i' {
      c' := memory[d];
    } else if opcode == '*' {
      memory[d] := Rotate(memory[d]);
      a' := memory[d];
    } else if opcode == 'p' {
      memory[d] := CrazyWord(a, memory[d]);
      a' := memory[d];
    } else if opcode == '<' {
      out' := out + [a % 256];
    } else if opcode == '/' {
      if pos < |input| {
        a', pos' := input[pos], pos + 1;
      } else {
        a' := MEMORY_SIZE - 1;
      }
    }
  }

  /** The interpreter on a loaded memory, which it rewrites in place, stopped after `fuel` instructions. */
  method Execute(memory: array<Word>, input: seq<byte>, fuel: nat) returns (halted: bool, out: seq<byte>)
    requires memory.Length == MEMORY_SIZE
    modifies memory
    ensures var s := Steps(fuel, State(old(memory[..]), 0, 0, 0, input, 0, [], false));
      memory[..] == s.memory && out == s.out && halted == s.halted
  {
    var accumulator: Word, code: Word, data: Word := 0, 0, 0;
    var pos: nat := 0;
    var left := fuel;
    out, halted := [], false;
    ghost var goal := Steps(fuel, State(memory[..], 0, 0, 0, input, 0, [], false));
    while left > 0
      invariant InRange(State(memory[..], accumulator, code, data, input, pos, out, false))
      invariant goal == Steps(left, State(memory[..], accumulator, code, data, input, pos, out, false))
      decreases left
    {
      ghost var s := State(memory[..], accumulator, code, data, input, pos, out, false);
      left := left - 1;
      var instruction := memory[code];
      if !Graphical(instruction) {
        HaltedStays(left, Step(s));
        return true, out;
      }
      var opcode := OpcodeAt(instruction, code);
      if opcode == 'v' {
        HaltedStays(left, Step(s));
        return true, out;
      }
      accumulator, code, data, pos, out := PerformInPlace(opcode, memory, s, accumulator, code, data, input, pos, out);
      ghost var t := Perform(opcode, s);
      instruction := memory[code];
      assert t.memory[t.code] == instruction;
      if !Graphical(instruction) {
        HaltedStays(left, Step(s));
        return true, out;
      }
      memory[code] := Encrypted(instruction);
      assert memory[..] == t.memory[t.code := Encrypted(instruction)];
      code := (code + 1) % MEMORY_SIZE;
      data := (data + 1) % MEMORY_SIZE;
      assert Step(s) == State(memory[..], accumulator, code, data, input, pos, out, false);
    }
  }
}
