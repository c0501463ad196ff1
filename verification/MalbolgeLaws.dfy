/**
 What the machine of scripts/malbolge.py does, instruction by instruction, and which sources it loads, said without its
 own step and loading functions: words are described by their trits, memories by their cells.
 */
module MalbolgeLaws {
  import opened Common
  import opened Malbolge

  // Words are their trits.

  lemma {:induction false} TritsDetermine(x: nat, y: nat, n: nat)
    requires x < Pow3(n) && y < Pow3(n) && forall k :: 0 <= k < n ==> Trit(x, k) == Trit(y, k)
    ensures x == y
    decreases n
  {
    if n > 0 {
      assert Trit(x, 0) == x % 3 && Trit(y, 0) == y % 3;
      forall k | 0 <= k < n - 1 ensures Trit(x / 3, k) == Trit(y / 3, k) {
        assert Trit(x, k + 1) == Trit(y, k + 1);
      }
      TritsDetermine(x / 3, y / 3, n - 1);
    }
  }

  /** The low trit moves to the top, the other nine move down. */
  ghost predicate IsRotated(n: Word, w: Word) {
    Trit(w, 9) == Trit(n, 0) && forall k :: 0 <= k < 9 ==> Trit(w, k) == Trit(n, k + 1)
  }

  ghost predicate IsCrazy(x: nat, y: nat, w: Word) {
    forall k :: 0 <= k < 10 ==> Trit(w, k) == TritOp(Trit(x, k), Trit(y, k))
  }

  lemma {:induction false} TopTrit(n: nat, t: nat, k: nat)
    requires n < Pow3(k) && t < 3
    ensures Trit(n + t * Pow3(k), k) == t
    ensures forall j :: 0 <= j < k ==> Trit(n + t * Pow3(k), j) == Trit(n, j)
    decreases k
  {
    var m := n + t * Pow3(k);
    if k > 0 {
      var p := t * Pow3(k - 1);
      assert t * Pow3(k) == 3 * p;
      assert m / 3 == n / 3 + p && m % 3 == n % 3;
      TopTrit(n / 3, t, k - 1);
      assert Trit(m, k) == Trit(m / 3, k - 1);
      forall j | 0 <= j < k ensures Trit(m, j) == Trit(n, j) {
        if j > 0 { assert Trit(m, j) == Trit(m / 3, j - 1) && Trit(n, j) == Trit(n / 3, j - 1); }
      }
    }
  }

  lemma {:induction false} NinePowers()
    ensures Pow3(9) == 19683 && Pow3(10) == 59049
  {
    TenPowers();
    assert Pow3(10) == 3 * Pow3(9);
  }

  lemma {:induction false} RotateRotates(n: Word)
    ensures IsRotated(n, Rotate(n))
  {
    NinePowers();
    TopTrit(n / 3, n % 3, 9);
    forall k | 0 <= k < 9 ensures Trit(Rotate(n), k) == Trit(n, k + 1) {
      assert Trit(n, k + 1) == Trit(n / 3, k);
    }
  }

  lemma {:induction false} CrazyIsCrazy(x: nat, y: nat)
    ensures IsCrazy(x, y, CrazyWord(x, y))
  {
    forall k | 0 <= k < 10 ensures Trit(CrazyWord(x, y), k) == TritOp(Trit(x, k), Trit(y, k)) {
      CrazyIsTritwise(x, y, k);
    }
  }

  // One instruction.

  lemma {:induction false} SixPieces(a: string, b: string, c: string, d: string, e: string, f: string, i: nat)
    requires |a| == |b| == |c| == |d| == |e| == 16 && i < 80 + |f|
    ensures (a + b + c + d + e + f)[i] ==
            if i < 16 then a[i] else if i < 32 then b[i - 16] else if i < 48 then c[i - 32]
            else if i < 64 then d[i - 48] else if i < 80 then e[i - 64] else f[i - 80]
  {
  }

  /** The eight instructions by the number (n + position) modulo 94; every other number does nothing. */
  function Decoded(n: nat, position: nat): char {
    match (n + position) % 94
    case 4 => 'i'
    case 5 => '<'
    case 23 => '/'
    case 39 => '*'
    case 40 => 'j'
    case 62 => 'p'
    case 81 => 'v'
    case _ => 'o'
  }

  function Entry(i: nat): char
    requires i < 94
  {
    if i < 16 then XLAT1_0[i] else if i < 32 then XLAT1_1[i - 16] else if i < 48 then XLAT1_2[i - 32]
    else if i < 64 then XLAT1_3[i - 48] else if i < 80 then XLAT1_4[i - 64] else XLAT1_5[i - 80]
  }

  /** The instruction at an index of the table, `o` wherever there is none. */
  function Instruction(i: nat): char {
    if i == 6 then '*' else if i == 7 then 'j' else if i == 29 then 'p' else if i == 48 then 'v'
    else if i == 65 then 'i' else if i == 66 then '<' else if i == 84 then '/' else 'o'
  }

  predicate Stands(i: nat)
    requires i < 94
  {
    (ValidOpcode(Entry(i)) <==> i in {6, 7, 29, 35, 48, 65, 66, 84})
    && (ValidOpcode(Entry(i)) ==> Entry(i) == Instruction(i))
  }

  lemma {:induction false} Entries0(i: nat)
    requires 0 <= i < 16
    ensures Stands(i)
  {
    assert XLAT1_0[0] == '+' && XLAT1_0[1] == 'b';
    assert XLAT1_0[2] == '(' && XLAT1_0[3] == '2';
    assert XLAT1_0[4] == '9' && XLAT1_0[5] == 'e';
    assert XLAT1_0[6] == '*' && XLAT1_0[7] == 'j';
    assert XLAT1_0[8] == '1' && XLAT1_0[9] == 'V';
    assert XLAT1_0[10] == 'M' && XLAT1_0[11] == 'E';
    assert XLAT1_0[12] == 'K' && XLAT1_0[13] == 'L';
    assert XLAT1_0[14] == 'y' && XLAT1_0[15] == 'C';
  }

  lemma {:induction false} Entries1(i: nat)
    requires 16 <= i < 32
    ensures Stands(i)
  {
    assert XLAT1_1[0] == '}' && XLAT1_1[1] == ')';
    assert XLAT1_1[2] == '8' && XLAT1_1[3] == '&';
    assert XLAT1_1[4] == 'm' && XLAT1_1[5] == '#';
    assert XLAT1_1[6] == '~' && XLAT1_1[7] == 'W';
    assert XLAT1_1[8] == '>' && XLAT1_1[9] == 'q';
    assert XLAT1_1[10] == 'x' && XLAT1_1[11] == 'd';
    assert XLAT1_1[12] == 'R' && XLAT1_1[13] == 'p';
    assert XLAT1_1[14] == '0' && XLAT1_1[15] == 'w';
  }

  lemma {:induction false} Entries2(i: nat)
    requires 32 <= i < 48
    ensures Stands(i)
  {
    assert XLAT1_2[0] == 'k' && XLAT1_2[1] == 'r';
    assert XLAT1_2[2] == 'U' && XLAT1_2[3] == 'o';
    assert XLAT1_2[4] == '[' && XLAT1_2[5] == 'D';
    assert XLAT1_2[6] == '7' && XLAT1_2[7] == ',';
    assert XLAT1_2[8] == 'X' && XLAT1_2[9] == 'T';
    assert XLAT1_2[10] == 'c' && XLAT1_2[11] == 'A';
    assert XLAT1_2[12] == '"' && XLAT1_2[13] == 'l';
    assert XLAT1_2[14] == 'I' && XLAT1_2[15] == '.';
  }

  lemma {:induction false} Entries3(i: nat)
    requires 48 <= i < 64
    ensures Stands(i)
  {
    assert XLAT1_3[0] == 'v' && XLAT1_3[1] == '%';
    assert XLAT1_3[2] == '{' && XLAT1_3[3] == 'g';
    assert XLAT1_3[4] == 'J' && XLAT1_3[5] == 'h';
    assert XLAT1_3[6] == '4' && XLAT1_3[7] == 'G';
    assert XLAT1_3[8] == '\\' && XLAT1_3[9] == '-';
    assert XLAT1_3[10] == '=' && XLAT1_3[11] == 'O';
    assert XLAT1_3[12] == '@' && XLAT1_3[13] == '5';
    assert XLAT1_3[14] == '`' && XLAT1_3[15] == '_';
  }

  lemma {:induction false} Entries4(i: nat)
    requires 64 <= i < 80
    ensures Stands(i)
  {
    assert XLAT1_4[0] == '3' && XLAT1_4[1] == 'i';
    assert XLAT1_4[2] == '<' && XLAT1_4[3] == '?';
    assert XLAT1_4[4] == 'Z' && XLAT1_4[5] == '\'';
    assert XLAT1_4[6] == ';' && XLAT1_4[7] == 'F';
    assert XLAT1_4[8] == 'N' && XLAT1_4[9] == 'Q';
    assert XLAT1_4[10] == 'u' && XLAT1_4[11] == 'Y';
    assert XLAT1_4[12] == ']' && XLAT1_4[13] == 's';
    assert XLAT1_4[14] == 'z' && XLAT1_4[15] == 'f';
  }

  lemma {:induction false} Entries5(i: nat)
    requires 80 <= i < 94
    ensures Stands(i)
  {
    assert XLAT1_5[0] == '$' && XLAT1_5[1] == '!';
    assert XLAT1_5[2] == 'B' && XLAT1_5[3] == 'S';
    assert XLAT1_5[4] == '/' && XLAT1_5[5] == '|';
    assert XLAT1_5[6] == 't' && XLAT1_5[7] == ':';
    assert XLAT1_5[8] == 'P' && XLAT1_5[9] == 'n';
    assert XLAT1_5[10] == '6' && XLAT1_5[11] == '^';
    assert XLAT1_5[12] == 'H' && XLAT1_5[13] == 'a';
  }

  lemma {:induction false} EntryStands(i: nat)
    requires i < 94
    ensures Stands(i)
  {
    if i < 32 {
      if i < 16 { Entries0(i); } else { Entries1(i); }
    } else if i < 64 {
      if i < 48 { Entries2(i); } else { Entries3(i); }
    } else {
      if i < 80 { Entries4(i); } else { Entries5(i); }
    }
  }

  lemma {:induction false} OpcodeIsEntry(n: nat, position: nat)
    requires 33 <= n <= 126
    ensures OpcodeAt(n, position) == Entry((n - 33 + position) % 94)
  {
    SixPieces(XLAT1_0, XLAT1_1, XLAT1_2, XLAT1_3, XLAT1_4, XLAT1_5, (n - 33 + position) % 94);
  }

  lemma {:induction false} Shifted(m: nat)
    ensures (m + 33) % 94 == if m % 94 < 61 then m % 94 + 33 else m % 94 - 61
  {
  }

  lemma {:induction false} OpcodeIsDecoded(n: nat, position: nat)
    requires 33 <= n <= 126
    ensures ValidOpcode(OpcodeAt(n, position)) <==> IsInstruction(n, position)
    ensures ValidOpcode(OpcodeAt(n, position)) ==> OpcodeAt(n, position) == Decoded(n, position)
    ensures !ValidOpcode(OpcodeAt(n, position)) ==> Decoded(n, position) == 'o'
  {
    Shifted(n - 33 + position);
    OpcodeIsEntry(n, position);
    EntryStands((n - 33 + position) % 94);
  }

  predicate Runs(s: State)
    requires InRange(s)
  {
    !s.halted && 33 <= s.memory[s.code] <= 126 && Decoded(s.memory[s.code], s.code) != 'v'
  }

  /** The accumulator after an instruction that leaves w in the data cell. */
  function AccumulatorAfter(s: State, op: char, w: Word): nat {
    if op == '*' || op == 'p' then w
    else if op == '/' then if s.pos < |s.input| then s.input[s.pos] else 59048
    else s.accumulator
  }

  /** What the instruction op leaves in the data cell. */
  ghost predicate Leaves(s: State, op: char, w: Word)
    requires InRange(s)
  {
    var cell := s.memory[s.data];
    if op == '*' then IsRotated(cell, w) else if op == 'p' then IsCrazy(s.accumulator, cell, w) else w == cell
  }

  /**
   The next state after the instruction op: w goes to the data cell, `j` and `i` redirect the pointers, `<` writes,
     `/` reads, and then the cell
   at the code pointer is encrypted and both pointers advance, unless that cell is not graphical, which halts.
   */
  ghost predicate Executes(s: State, op: char, w: Word, s': State)
    requires InRange(s)
  {
    var cell := s.memory[s.data];
    var code, data := if op == 'i' then cell else s.code, if op == 'j' then cell else s.data;
    var executed := if code == s.data then w else s.memory[code];
    && Leaves(s, op, w)
    && s'.accumulator == AccumulatorAfter(s, op, w)
    && s'.input == s.input && s'.pos == (if op == '/' && s.pos < |s.input| then s.pos + 1 else s.pos)
    && s'.out == s.out + (if op == '<' then [s.accumulator % 256] else [])
    && s'.halted == !(33 <= executed <= 126)
    && s'.code == (if s'.halted then code else (code + 1) % 59049)
    && s'.data == (if s'.halted then data else (data + 1) % 59049)
    && IsWritten(s.memory, s.data, w, code, if s'.halted then executed else Encrypted(executed), s'.memory)
  }

  /** The cell at code holds e, the cell at data w unless it is the same, and the others what they did. */
  ghost predicate IsWritten(memory: seq<Word>, data: nat, w: Word, code: nat, e: Word, memory': seq<Word>) {
    && |memory| == |memory'| == 59049 && code < 59049 && data < 59049
    && memory'[code] == e && (data != code ==> memory'[data] == w)
    && forall i :: 0 <= i < 59049 && i != data && i != code ==> memory'[i] == memory[i]
  }

  /** The cell at which the instruction leaves the code pointer: it is executed next, and encrypted. */
  function Target(s: State): nat
    requires InRange(s)
  {
    if 33 <= s.memory[s.code] <= 126 && Decoded(s.memory[s.code], s.code) == 'i' then s.memory[s.data] else s.code
  }

  lemma {:induction false} LeftInCell(s: State, op: char) returns (w: Word)
    requires InRange(s)
    ensures Leaves(s, op, w)
    ensures var cell := s.memory[s.data];
            w == if op == '*' then Rotate(cell) else if op == 'p' then CrazyWord(s.accumulator, cell) else cell
  {
    var cell := s.memory[s.data];
    w := if op == '*' then Rotate(cell) else if op == 'p' then CrazyWord(s.accumulator, cell) else cell;
    RotateRotates(cell);
    CrazyIsCrazy(s.accumulator, cell);
  }

  lemma {:induction false} Performed(s: State, op: char, w: Word)
    requires InRange(s) && !s.halted
    requires var cell := s.memory[s.data];
             w == if op == '*' then Rotate(cell) else if op == 'p' then CrazyWord(s.accumulator, cell) else cell
    ensures var cell := s.memory[s.data];
            Perform(op, s) ==
            State(s.memory[s.data := w], AccumulatorAfter(s, op, w), if op == 'i' then cell else s.code,
                  if op == 'j' then cell else s.data, s.input,
                  if op == '/' && s.pos < |s.input| then s.pos + 1 else s.pos,
                  s.out + (if op == '<' then [s.accumulator % 256] else []), false)
  {
    assert s.memory[s.data := s.memory[s.data]] == s.memory;
    assert s.out + [] == s.out;
  }

  /** What follows the instruction itself. */
  ghost predicate Advances(t: State, s': State)
    requires InRange(t)
  {
    if 33 <= t.memory[t.code] <= 126 then
      s' == t.(memory := t.memory[t.code := Encrypted(t.memory[t.code])],
               code := (t.code + 1) % 59049, data := (t.data + 1) % 59049)
    else s' == t.(halted := true)
  }

  lemma {:induction false} DecodedActs(s: State)
    requires InRange(s) && 33 <= s.memory[s.code] <= 126
    ensures var op, decoded := OpcodeAt(s.memory[s.code], s.code), Decoded(s.memory[s.code], s.code);
            Perform(op, s) == Perform(decoded, s) && (op == 'v' <==> decoded == 'v')
  {
    OpcodeIsDecoded(s.memory[s.code], s.code);
  }

  lemma {:induction false} StepEncrypts(s: State, t: State)
    requires InRange(s) && Runs(s) && t == Perform(Decoded(s.memory[s.code], s.code), s) && !t.halted
    ensures Advances(t, Steps(1, s))
  {
    DecodedActs(s);
    assert Steps(1, s) == Steps(0, Step(s)) == Step(s);
  }

  lemma {:induction false} EncryptedAt(memory: seq<Word>, data: nat, w: Word, code: nat, e: Word)
    requires |memory| == 59049 && data < 59049 && code < 59049
    ensures memory[data := w][code] == if code == data then w else memory[code]
    ensures IsWritten(memory, data, w, code, e, memory[data := w][code := e])
    ensures e == memory[data := w][code] ==> IsWritten(memory, data, w, code, e, memory[data := w])
  {
  }

  lemma {:induction false} AdvancesExecutes(s: State, op: char, w: Word, t: State, s': State)
    requires InRange(s) && InRange(t) && Leaves(s, op, w) && !t.halted && Advances(t, s')
    requires t.memory == s.memory[s.data := w] && t.accumulator == AccumulatorAfter(s, op, w)
    requires t.code == (if op == 'i' then s.memory[s.data] else s.code)
    requires t.data == (if op == 'j' then s.memory[s.data] else s.data)
    requires t.input == s.input && t.pos == (if op == '/' && s.pos < |s.input| then s.pos + 1 else s.pos)
    requires t.out == s.out + (if op == '<' then [s.accumulator % 256] else [])
    ensures Executes(s, op, w, s')
  {
    var executed := t.memory[t.code];
    EncryptedAt(s.memory, s.data, w, t.code, if 33 <= executed <= 126 then Encrypted(executed) else executed);
  }

  /** Main result: what one machine step does, for every state. */
  lemma {:induction false} StepExecutes(s: State) returns (w: Word)
    requires InRange(s) && Runs(s)
    ensures Executes(s, Decoded(s.memory[s.code], s.code), w, Steps(1, s))
  {
    var op := Decoded(s.memory[s.code], s.code);
    w := LeftInCell(s, op);
    Performed(s, op, w);
    StepEncrypts(s, Perform(op, s));
    AdvancesExecutes(s, op, w, Perform(op, s), Steps(1, s));
  }

  lemma {:induction false} StepHalts(s: State)
    requires InRange(s) && !Runs(s)
    ensures Steps(1, s) == s.(halted := true)
  {
    if 33 <= s.memory[s.code] <= 126 { DecodedActs(s); }
    assert Steps(1, s) == Steps(0, Step(s)) == Step(s);
  }

  /** The word left in the data cell is determined by the instruction, so the relation has one next state. */
  lemma {:induction false} LeavesOneWord(s: State, op: char, w: Word, w': Word)
    requires InRange(s) && Leaves(s, op, w) && Leaves(s, op, w')
    ensures w == w'
  {
    if op == '*' {
      forall k | 0 <= k < 10 ensures Trit(w, k) == Trit(w', k) {}
    } else if op == 'p' {
      forall k | 0 <= k < 10 ensures Trit(w, k) == Trit(w', k) {}
    }
    NinePowers();
    if op == '*' || op == 'p' { TritsDetermine(w, w', 10); }
  }

  /** Only the data cell and the executed cell can change, and at most one byte is written and one read. */
  lemma {:induction false} StepFrame(s: State)
    requires InRange(s)
    ensures var s' := Steps(1, s);
            && (forall k :: 0 <= k < 59049 && k != s.data && k != Target(s) ==> s'.memory[k] == s.memory[k])
            && s.out <= s'.out && |s'.out| <= |s.out| + 1 && s.pos <= s'.pos <= s.pos + 1
  {
    if Runs(s) {
      var w := StepExecutes(s);
    } else {
      StepHalts(s);
    }
  }

  // Encryption permutes the graphical characters.

  const DECRYPT_0 := "D|y+:$l,3i?85aXW"
  const DECRYPT_1 := "NI</!QHY^xA`TBz~"
  const DECRYPT_2 := "MPOptJ{4UFk>jwL2"
  const DECRYPT_3 := "@sGbCc1mh69;#SVf"
  const DECRYPT_4 := "d]e=.)%K}[vq_7uE"
  const DECRYPT_5 := "&*\\'gR-o(\"0Zrn"

  /** The inverse of the encryption table. */
  function Decrypted(n: nat): nat
    requires 33 <= n <= 126
  {
    var i := n - 33;
    (if i < 16 then DECRYPT_0[i] else if i < 32 then DECRYPT_1[i - 16] else if i < 48 then DECRYPT_2[i - 32]
     else if i < 64 then DECRYPT_3[i - 48] else if i < 80 then DECRYPT_4[i - 64] else DECRYPT_5[i - 80]) as int
  }

  /** The encryption table by its pieces. */
  function Piece(i: nat): char
    requires i < 94
  {
    if i < 16 then XLAT2_0[i] else if i < 32 then XLAT2_1[i - 16] else if i < 48 then XLAT2_2[i - 32]
    else if i < 64 then XLAT2_3[i - 48] else if i < 80 then XLAT2_4[i - 64] else XLAT2_5[i - 80]
  }

  lemma {:induction false} EncryptedPiece(n: nat)
    requires 33 <= n <= 126
    ensures Encrypted(n) == Piece(n - 33) as int
  {
    SixPieces(XLAT2_0, XLAT2_1, XLAT2_2, XLAT2_3, XLAT2_4, XLAT2_5, n - 33);
  }

  lemma {:induction false} Undoes0(n: nat)
    requires 33 <= n < 41
    ensures 33 <= Piece(n - 33) as int <= 126 && Decrypted(Piece(n - 33) as int) == n
  {
    assert XLAT2_0[0] == '5' && DECRYPT_1[4] == '!';
    assert XLAT2_0[1] == 'z' && DECRYPT_5[9] == '"';
    assert XLAT2_0[2] == ']' && DECRYPT_3[12] == '#';
    assert XLAT2_0[3] == '&' && DECRYPT_0[5] == '$';
    assert XLAT2_0[4] == 'g' && DECRYPT_4[6] == '%';
    assert XLAT2_0[5] == 'q' && DECRYPT_5[0] == '&';
    assert XLAT2_0[6] == 't' && DECRYPT_5[3] == '\'';
    assert XLAT2_0[7] == 'y' && DECRYPT_5[8] == '(';
  }

  lemma {:induction false} Undoes1(n: nat)
    requires 41 <= n < 49
    ensures 33 <= Piece(n - 33) as int <= 126 && Decrypted(Piece(n - 33) as int) == n
  {
    assert XLAT2_0[8] == 'f' && DECRYPT_4[5] == ')';
    assert XLAT2_0[9] == 'r' && DECRYPT_5[1] == '*';
    assert XLAT2_0[10] == '$' && DECRYPT_0[3] == '+';
    assert XLAT2_0[11] == '(' && DECRYPT_0[7] == ',';
    assert XLAT2_0[12] == 'w' && DECRYPT_5[6] == '-';
    assert XLAT2_0[13] == 'e' && DECRYPT_4[4] == '.';
    assert XLAT2_0[14] == '4' && DECRYPT_1[3] == '/';
    assert XLAT2_0[15] == '{' && DECRYPT_5[10] == '0';
  }

  lemma {:induction false} Undoes2(n: nat)
    requires 49 <= n < 57
    ensures 33 <= Piece(n - 33) as int <= 126 && Decrypted(Piece(n - 33) as int) == n
  {
    assert XLAT2_1[0] == 'W' && DECRYPT_3[6] == '1';
    assert XLAT2_1[1] == 'P' && DECRYPT_2[15] == '2';
    assert XLAT2_1[2] == ')' && DECRYPT_0[8] == '3';
    assert XLAT2_1[3] == 'H' && DECRYPT_2[7] == '4';
    assert XLAT2_1[4] == '-' && DECRYPT_0[12] == '5';
    assert XLAT2_1[5] == 'Z' && DECRYPT_3[9] == '6';
    assert XLAT2_1[6] == 'n' && DECRYPT_4[13] == '7';
    assert XLAT2_1[7] == ',' && DECRYPT_0[11] == '8';
  }

  lemma {:induction false} Undoes3(n: nat)
    requires 57 <= n < 65
    ensures 33 <= Piece(n - 33) as int <= 126 && Decrypted(Piece(n - 33) as int) == n
  {
    assert XLAT2_1[8] == '[' && DECRYPT_3[10] == '9';
    assert XLAT2_1[9] == '%' && DECRYPT_0[4] == ':';
    assert XLAT2_1[10] == '\\' && DECRYPT_3[11] == ';';
    assert XLAT2_1[11] == '3' && DECRYPT_1[2] == '<';
    assert XLAT2_1[12] == 'd' && DECRYPT_4[3] == '=';
    assert XLAT2_1[13] == 'L' && DECRYPT_2[11] == '>';
    assert XLAT2_1[14] == '+' && DECRYPT_0[10] == '?';
    assert XLAT2_1[15] == 'Q' && DECRYPT_3[0] == '@';
  }

  lemma {:induction false} Undoes4(n: nat)
    requires 65 <= n < 73
    ensures 33 <= Piece(n - 33) as int <= 126 && Decrypted(Piece(n - 33) as int) == n
  {
    assert XLAT2_2[0] == ';' && DECRYPT_1[10] == 'A';
    assert XLAT2_2[1] == '>' && DECRYPT_1[13] == 'B';
    assert XLAT2_2[2] == 'U' && DECRYPT_3[4] == 'C';
    assert XLAT2_2[3] == '!' && DECRYPT_0[0] == 'D';
    assert XLAT2_2[4] == 'p' && DECRYPT_4[15] == 'E';
    assert XLAT2_2[5] == 'J' && DECRYPT_2[9] == 'F';
    assert XLAT2_2[6] == 'S' && DECRYPT_3[2] == 'G';
    assert XLAT2_2[7] == '7' && DECRYPT_1[6] == 'H';
  }

  lemma {:induction false} Undoes5(n: nat)
    requires 73 <= n < 81
    ensures 33 <= Piece(n - 33) as int <= 126 && Decrypted(Piece(n - 33) as int) == n
  {
    assert XLAT2_2[8] == '2' && DECRYPT_1[1] == 'I';
    assert XLAT2_2[9] == 'F' && DECRYPT_2[5] == 'J';
    assert XLAT2_2[10] == 'h' && DECRYPT_4[7] == 'K';
    assert XLAT2_2[11] == 'O' && DECRYPT_2[14] == 'L';
    assert XLAT2_2[12] == 'A' && DECRYPT_2[0] == 'M';
    assert XLAT2_2[13] == '1' && DECRYPT_1[0] == 'N';
    assert XLAT2_2[14] == 'C' && DECRYPT_2[2] == 'O';
    assert XLAT2_2[15] == 'B' && DECRYPT_2[1] == 'P';
  }

  lemma {:induction false} Undoes6(n: nat)
    requires 81 <= n < 89
    ensures 33 <= Piece(n - 33) as int <= 126 && Decrypted(Piece(n - 33) as int) == n
  {
    assert XLAT2_3[0] == '6' && DECRYPT_1[5] == 'Q';
    assert XLAT2_3[1] == 'v' && DECRYPT_5[5] == 'R';
    assert XLAT2_3[2] == '^' && DECRYPT_3[13] == 'S';
    assert XLAT2_3[3] == '=' && DECRYPT_1[12] == 'T';
    assert XLAT2_3[4] == 'I' && DECRYPT_2[8] == 'U';
    assert XLAT2_3[5] == '_' && DECRYPT_3[14] == 'V';
    assert XLAT2_3[6] == '0' && DECRYPT_0[15] == 'W';
    assert XLAT2_3[7] == '/' && DECRYPT_0[14] == 'X';
  }

  lemma {:induction false} Undoes7(n: nat)
    requires 89 <= n < 97
    ensures 33 <= Piece(n - 33) as int <= 126 && Decrypted(Piece(n - 33) as int) == n
  {
    assert XLAT2_3[8] == '8' && DECRYPT_1[7] == 'Y';
    assert XLAT2_3[9] == '|' && DECRYPT_5[11] == 'Z';
    assert XLAT2_3[10] == 'j' && DECRYPT_4[9] == '[';
    assert XLAT2_3[11] == 's' && DECRYPT_5[2] == '\\';
    assert XLAT2_3[12] == 'b' && DECRYPT_4[1] == ']';
    assert XLAT2_3[13] == '9' && DECRYPT_1[8] == '^';
    assert XLAT2_3[14] == 'm' && DECRYPT_4[12] == '_';
    assert XLAT2_3[15] == '<' && DECRYPT_1[11] == '`';
  }

  lemma {:induction false} Undoes8(n: nat)
    requires 97 <= n < 105
    ensures 33 <= Piece(n - 33) as int <= 126 && Decrypted(Piece(n - 33) as int) == n
  {
    assert XLAT2_4[0] == '.' && DECRYPT_0[13] == 'a';
    assert XLAT2_4[1] == 'T' && DECRYPT_3[3] == 'b';
    assert XLAT2_4[2] == 'V' && DECRYPT_3[5] == 'c';
    assert XLAT2_4[3] == 'a' && DECRYPT_4[0] == 'd';
    assert XLAT2_4[4] == 'c' && DECRYPT_4[2] == 'e';
    assert XLAT2_4[5] == '`' && DECRYPT_3[15] == 'f';
    assert XLAT2_4[6] == 'u' && DECRYPT_5[4] == 'g';
    assert XLAT2_4[7] == 'Y' && DECRYPT_3[8] == 'h';
  }

  lemma {:induction false} Undoes9(n: nat)
    requires 105 <= n < 113
    ensures 33 <= Piece(n - 33) as int <= 126 && Decrypted(Piece(n - 33) as int) == n
  {
    assert XLAT2_4[8] == '*' && DECRYPT_0[9] == 'i';
    assert XLAT2_4[9] == 'M' && DECRYPT_2[12] == 'j';
    assert XLAT2_4[10] == 'K' && DECRYPT_2[10] == 'k';
    assert XLAT2_4[11] == '\'' && DECRYPT_0[6] == 'l';
    assert XLAT2_4[12] == 'X' && DECRYPT_3[7] == 'm';
    assert XLAT2_4[13] == '~' && DECRYPT_5[13] == 'n';
    assert XLAT2_4[14] == 'x' && DECRYPT_5[7] == 'o';
    assert XLAT2_4[15] == 'D' && DECRYPT_2[3] == 'p';
  }

  lemma {:induction false} Undoes10(n: nat)
    requires 113 <= n < 121
    ensures 33 <= Piece(n - 33) as int <= 126 && Decrypted(Piece(n - 33) as int) == n
  {
    assert XLAT2_5[0] == 'l' && DECRYPT_4[11] == 'q';
    assert XLAT2_5[1] == '}' && DECRYPT_5[12] == 'r';
    assert XLAT2_5[2] == 'R' && DECRYPT_3[1] == 's';
    assert XLAT2_5[3] == 'E' && DECRYPT_2[4] == 't';
    assert XLAT2_5[4] == 'o' && DECRYPT_4[14] == 'u';
    assert XLAT2_5[5] == 'k' && DECRYPT_4[10] == 'v';
    assert XLAT2_5[6] == 'N' && DECRYPT_2[13] == 'w';
    assert XLAT2_5[7] == ':' && DECRYPT_1[9] == 'x';
  }

  lemma {:induction false} Undoes11(n: nat)
    requires 121 <= n < 127
    ensures 33 <= Piece(n - 33) as int <= 126 && Decrypted(Piece(n - 33) as int) == n
  {
    assert XLAT2_5[8] == '#' && DECRYPT_0[2] == 'y';
    assert XLAT2_5[9] == '?' && DECRYPT_1[14] == 'z';
    assert XLAT2_5[10] == 'G' && DECRYPT_2[6] == '{';
    assert XLAT2_5[11] == '"' && DECRYPT_0[1] == '|';
    assert XLAT2_5[12] == 'i' && DECRYPT_4[8] == '}';
    assert XLAT2_5[13] == '@' && DECRYPT_1[15] == '~';
  }

  /** Different characters are encrypted differently, so encryption permutes 33..126. */
  lemma {:induction false} EncryptionIsAPermutation(n: nat)
    requires 33 <= n <= 126
    ensures 33 <= Encrypted(n) <= 126 && Decrypted(Encrypted(n)) == n
  {
    EncryptedPiece(n);
    if n < 57 {
      if n < 41 { Undoes0(n); } else if n < 49 { Undoes1(n); } else { Undoes2(n); }
    } else if n < 81 {
      if n < 65 { Undoes3(n); } else if n < 73 { Undoes4(n); } else { Undoes5(n); }
    } else if n < 105 {
      if n < 89 { Undoes6(n); } else if n < 97 { Undoes7(n); } else { Undoes8(n); }
    } else {
      if n < 113 { Undoes9(n); } else if n < 121 { Undoes10(n); } else { Undoes11(n); }
    }
  }

  // Loading.

  /** The bytes of the source that are not white space. */
  function Symbols(data: seq<byte>): seq<byte> {
    if data == [] then []
    else (if data[0] in {32, 9, 10, 13, 11, 12} then [] else [data[0]]) + Symbols(data[1..])
  }

  predicate IsInstruction(n: nat, position: nat) {
    33 <= n <= 126 && (n + position) % 94 in {4, 5, 23, 39, 40, 62, 68, 81}
  }

  ghost predicate Loadable(symbols: seq<byte>, from: nat) {
    forall i :: 0 <= i < |symbols| ==> IsInstruction(symbols[i], from + i)
  }

  /** What loading the symbols behind a memory may give. */
  ghost predicate Loads(symbols: seq<byte>, memory: seq<Word>, r: Result<seq<Word>, LoadError>) {
    && (r.Ok? <==> 2 <= |memory| + |symbols| <= 59049 && Loadable(symbols, |memory|))
    && (r.Ok? ==> r.value == memory + symbols)
  }

  lemma {:induction false} LoadsOneMore(b: byte, tail: seq<byte>, memory: seq<Word>,
    r: Result<seq<Word>, LoadError>)
    requires |memory| <= 59049
    requires if |memory| < 59049 && IsInstruction(b, |memory|) then Loads(tail, memory + [b], r) else r.Err?
    ensures Loads([b] + tail, memory, r)
  {
    LoadableOneMore(b, tail, |memory|);
    assert |memory + [b]| == |memory| + 1 && memory + [b] + tail == memory + ([b] + tail);
  }

  lemma {:induction false} LoadsFrom(data: seq<byte>, offset: nat, memory: seq<Word>)
    requires offset <= |data| && |memory| <= 59049
    ensures Loads(Symbols(data[offset..]), memory, LoadFrom(data, offset, memory))
    decreases |data| - offset
  {
    if offset < |data| {
      var b := data[offset];
      assert data[offset..][0] == b && data[offset..][1..] == data[offset + 1..];
      var tail := Symbols(data[offset + 1..]);
      if IsSpace(b) {
        LoadsFrom(data, offset + 1, memory);
        assert Symbols(data[offset..]) == [] + tail == tail;
      } else {
        LoadsNext(data, offset, memory);
        if |memory| < 59049 && IsInstruction(b, |memory|) { LoadsFrom(data, offset + 1, memory + [b]); }
        LoadsOneMore(b, tail, memory, LoadFrom(data, offset, memory));
      }
    } else {
      assert Loadable([], |memory|) && memory + [] == memory;
    }
  }

  lemma {:induction false} LoadsNext(data: seq<byte>, offset: nat, memory: seq<Word>)
    requires offset < |data| && !IsSpace(data[offset])
    ensures if |memory| < 59049 && IsInstruction(data[offset], |memory|) then
              LoadFrom(data, offset, memory) == LoadFrom(data, offset + 1, memory + [data[offset]])
            else LoadFrom(data, offset, memory).Err?
  {
    if 33 <= data[offset] <= 126 { OpcodeIsDecoded(data[offset], |memory|); }
  }

  lemma {:induction false} LoadableOneMore(b: byte, tail: seq<byte>, from: nat)
    ensures Loadable([b] + tail, from) <==> IsInstruction(b, from) && Loadable(tail, from + 1)
  {
    if Loadable([b] + tail, from) {
      assert IsInstruction(([b] + tail)[0], from + 0);
      forall i | 0 <= i < |tail| ensures IsInstruction(tail[i], from + 1 + i) {
        assert tail[i] == ([b] + tail)[i + 1];
      }
    }
  }

  /** A source loads exactly when 2 to 59049 symbols remain and each is an instruction at its place. */
  lemma {:induction false} LoadsExactly(data: seq<byte>)
    ensures LoadFrom(data, 0, []).Ok? <==> 2 <= |Symbols(data)| <= 59049 && Loadable(Symbols(data), 0)
    ensures LoadFrom(data, 0, []).Ok? ==> LoadFrom(data, 0, []).value == Symbols(data)
  {
    assert data[0..] == data;
    LoadsFrom(data, 0, []);
  }

  lemma {:induction false} FillGoesOn(memory: seq<Word>)
    requires 2 <= |memory| < 59049
    ensures Fill(memory) == Fill(memory + [CrazyWord(memory[|memory| - 1], memory[|memory| - 2])])
  {
  }

  /** Behind the program every cell is the trit operation of the two cells before it. */
  lemma {:induction false} FillIsCrazy(memory: seq<Word>, i: nat)
    requires 2 <= |memory| <= i < 59049
    ensures IsCrazy(Fill(memory)[i - 1], Fill(memory)[i - 2], Fill(memory)[i])
    decreases 59049 - |memory|
  {
    var n := |memory|;
    var more := memory + [CrazyWord(memory[n - 1], memory[n - 2])];
    FillGoesOn(memory);
    if i == n {
      CrazyIsCrazy(memory[n - 1], memory[n - 2]);
      var full := Fill(more);
      assert more == full[..n + 1];
      assert full[n] == more[n] && full[n - 1] == more[n - 1] && full[n - 2] == more[n - 2];
    } else {
      FillIsCrazy(more, i);
    }
  }
}
