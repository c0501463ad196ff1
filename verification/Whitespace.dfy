/**
 The instruction code of Whitespace and its parser, after scripts/whitespace.py: an operator spelled by two to four
 characters, then a number or a label that a line feed ends.
 */
module Whitespace {
  import opened Common

  const SPACE := ' '
  const TAB := '\t'
  const LF := '\n'

  datatype Op =
    | Push | Dup | Swap | Discard | Copy | Slide
    | Add | Sub | Mul | Div | Mod
    | Store | Retrieve
    | OutChar | OutNum | ReadChar | ReadNum
    | Mark | Call | Jump | JumpZero | JumpNeg | Return | Exit

  datatype Argument<N> = NoArgument | Number(n: N) | Label(bits: seq<bool>)

  datatype Instruction<N> = Instruction(op: Op, argument: Argument<N>)

  /** A number as written: a sign and any bits, with leading zeros or none at all. */
  datatype Written = Written(negative: bool, bits: seq<bool>)

  predicate TakesNumber(op: Op) {
    op in {Push, Copy, Slide}
  }

  predicate TakesLabel(op: Op) {
    op in {Mark, Call, Jump, JumpZero, JumpNeg}
  }

  predicate Proper<N>(i: Instruction<N>) {
    match i.argument
    case NoArgument => !TakesNumber(i.op) && !TakesLabel(i.op)
    case Number(_) => TakesNumber(i.op)
    case Label(_) => TakesLabel(i.op)
  }

  // How instructions are spelled.

  function Head(op: Op): string {
    match op
    case Push => [SPACE, SPACE]
    case Dup => [SPACE, LF, SPACE]
    case Swap => [SPACE, LF, TAB]
    case Discard => [SPACE, LF, LF]
    case Copy => [SPACE, TAB, SPACE]
    case Slide => [SPACE, TAB, LF]
    case Add => [TAB, SPACE, SPACE, SPACE]
    case Sub => [TAB, SPACE, SPACE, TAB]
    case Mul => [TAB, SPACE, SPACE, LF]
    case Div => [TAB, SPACE, TAB, SPACE]
    case Mod => [TAB, SPACE, TAB, TAB]
    case Store => [TAB, TAB, SPACE]
    case Retrieve => [TAB, TAB, TAB]
    case OutChar => [TAB, LF, SPACE, SPACE]
    case OutNum => [TAB, LF, SPACE, TAB]
    case ReadChar => [TAB, LF, TAB, SPACE]
    case ReadNum => [TAB, LF, TAB, TAB]
    case Mark => [LF, SPACE, SPACE]
    case Call => [LF, SPACE, TAB]
    case Jump => [LF, SPACE, LF]
    case JumpZero => [LF, TAB, SPACE]
    case JumpNeg => [LF, TAB, TAB]
    case Return => [LF, TAB, LF]
    case Exit => [LF, LF, LF]
  }

  function Bits(bits: seq<bool>): string {
    if bits == [] then [] else [if bits[0] then TAB else SPACE] + Bits(bits[1..])
  }

  function Spelling(a: Argument<Written>): string {
    match a
    case NoArgument => []
    case Number(n) => [if n.negative then TAB else SPACE] + (Bits(n.bits) + [LF])
    case Label(bits) => Bits(bits) + [LF]
  }

  function Encode(i: Instruction<Written>): string {
    Head(i.op) + Spelling(i.argument)
  }

  function EncodeAll(ins: seq<Instruction<Written>>): string {
    if ins == [] then [] else Encode(ins[0]) + EncodeAll(ins[1..])
  }

  // What they mean.

  function Value(bits: seq<bool>): nat {
    if bits == [] then 0 else 2 * Value(bits[..|bits| - 1]) + (if bits[|bits| - 1] then 1 else 0)
  }

  function ValueOf(n: Written): int {
    if n.negative then 0 - Value(n.bits) else Value(n.bits)
  }

  function Meaning(i: Instruction<Written>): Instruction<int> {
    Instruction(i.op, match i.argument
                      case NoArgument => NoArgument
                      case Number(n) => Number(ValueOf(n))
                      case Label(bits) => Label(bits))
  }

  function Meanings(ins: seq<Instruction<Written>>): (ms: seq<Instruction<int>>)
    ensures |ms| == |ins|
    ensures forall k :: 0 <= k < |ins| ==> ms[k] == Meaning(ins[k])
  {
    if ins == [] then [] else [Meaning(ins[0])] + Meanings(ins[1..])
  }

  /** Every label with the index at which it was marked last. */
  ghost predicate MarksLast(labels: map<seq<bool>, nat>, ins: seq<Instruction<int>>) {
    && (forall name :: name in labels ==>
          labels[name] < |ins| && ins[labels[name]] == Instruction(Mark, Label(name))
          && forall k :: labels[name] < k < |ins| ==> ins[k] != Instruction(Mark, Label(name)))
    && (forall k :: 0 <= k < |ins| && ins[k].op == Mark && ins[k].argument.Label? ==> ins[k].argument.bits in labels)
  }

  ghost predicate AllProper<N(!new)>(ins: seq<Instruction<N>>) {
    forall k {:trigger ins[k]} :: 0 <= k < |ins| ==> Proper(ins[k])
  }

  // The code is a prefix code.

  predicate At(s: string, k: nat, c: char) {
    k < |s| && s[k] == c
  }

  /** The operator at the start of s, by the branches of the parser. */
  function NextOp(s: string): Option<Op> {
    if At(s, 0, SPACE) then
      if At(s, 1, SPACE) then Some(Push)
      else if At(s, 1, LF) then
        if At(s, 2, SPACE) then Some(Dup) else if At(s, 2, TAB) then Some(Swap) else if At(s, 2, LF) then Some(Discard)
          else None
      else if At(s, 1, TAB) then
        if At(s, 2, SPACE) then Some(Copy) else if At(s, 2, LF) then Some(Slide) else None
      else None
    else if At(s, 0, TAB) then
      if At(s, 1, SPACE) then
        if At(s, 2, SPACE) then
          if At(s, 3, SPACE) then Some(Add) else if At(s, 3, TAB) then Some(Sub) else if At(s, 3, LF) then Some(Mul)
            else None
        else if At(s, 2, TAB) then
          if At(s, 3, SPACE) then Some(Div) else if At(s, 3, TAB) then Some(Mod) else None
        else None
      else if At(s, 1, TAB) then
        if At(s, 2, SPACE) then Some(Store) else if At(s, 2, TAB) then Some(Retrieve) else None
      else if At(s, 1, LF) then
        if At(s, 2, SPACE) then
          if At(s, 3, SPACE) then Some(OutChar) else if At(s, 3, TAB) then Some(OutNum) else None
        else if At(s, 2, TAB) then
          if At(s, 3, SPACE) then Some(ReadChar) else if At(s, 3, TAB) then Some(ReadNum) else None
        else None
      else None
    else if At(s, 0, LF) then
      if At(s, 1, SPACE) then
        if At(s, 2, SPACE) then Some(Mark) else if At(s, 2, TAB) then Some(Call) else if At(s, 2, LF) then Some(Jump)
          else None
      else if At(s, 1, TAB) then
        if At(s, 2, SPACE) then Some(JumpZero) else if At(s, 2, TAB) then Some(JumpNeg)
          else if At(s, 2, LF) then Some(Return) else None
      else if At(s, 1, LF) then
        if At(s, 2, LF) then Some(Exit) else None
      else None
    else None
  }

  lemma {:induction false} OpIsRead(op: Op, r: string)
    ensures NextOp(Head(op) + r) == Some(op)
  {
  }

  lemma {:induction false} OpWasRead(s: string)
    requires NextOp(s).Some?
    ensures Head(NextOp(s).value) <= s
  {
  }

  lemma {:induction false} HeadsAgree(op: Op, r: string, op': Op, r': string)
    requires Head(op) + r == Head(op') + r'
    ensures op == op' && r == r'
  {
    OpIsRead(op, r);
    OpIsRead(op', r');
    assert (Head(op) + r)[|Head(op)|..] == r && (Head(op) + r')[|Head(op)|..] == r';
  }

  lemma {:induction false} BitsAgree(bits: seq<bool>, r: string, bits': seq<bool>, r': string)
    requires Bits(bits) + [LF] + r == Bits(bits') + [LF] + r'
    ensures bits == bits' && r == r'
    decreases |bits|
  {
    var s, s' := Bits(bits) + [LF] + r, Bits(bits') + [LF] + r';
    assert s[0] == s'[0];
    if bits == [] {
      assert bits' == [] && s[1..] == r && s'[1..] == r';
    } else {
      assert bits' != [];
      assert s[1..] == Bits(bits[1..]) + [LF] + r && s'[1..] == Bits(bits'[1..]) + [LF] + r';
      BitsAgree(bits[1..], r, bits'[1..], r');
    }
  }

  lemma {:induction false} NumberTail(s: string, n: Written, r: string)
    requires s == Spelling(Number(n)) + r
    ensures s != [] && s[0] == (if n.negative then TAB else SPACE) && s[1..] == Bits(n.bits) + [LF] + r
  {
  }

  lemma {:induction false} NumbersAgree(n: Written, r: string, n': Written, r': string)
    requires Spelling(Number(n)) + r == Spelling(Number(n')) + r'
    ensures n == n' && r == r'
  {
    var s := Spelling(Number(n)) + r;
    NumberTail(s, n, r);
    NumberTail(s, n', r');
    BitsAgree(n.bits, r, n'.bits, r');
  }

  lemma {:induction false} ArgumentsAgree(a: Argument<Written>, r: string, a': Argument<Written>, r': string)
    requires a.NoArgument? == a'.NoArgument? && a.Number? == a'.Number?
    requires Spelling(a) + r == Spelling(a') + r'
    ensures a == a' && r == r'
  {
    match a
    case NoArgument =>
      assert Spelling(a) + r == r && Spelling(a') + r' == r';
    case Label(bits) =>
      BitsAgree(bits, r, a'.bits, r');
    case Number(n) =>
      NumbersAgree(n, r, a'.n, r');
  }

  /** No instruction is spelled by a prefix of what spells another. */
  lemma {:induction false} PrefixCode(i: Instruction<Written>, r: string, i': Instruction<Written>, r': string)
    requires Proper(i) && Proper(i') && Encode(i) + r == Encode(i') + r'
    ensures i == i' && r == r'
  {
    Regroup(Head(i.op), Spelling(i.argument), r);
    Regroup(Head(i'.op), Spelling(i'.argument), r');
    HeadsAgree(i.op, Spelling(i.argument) + r, i'.op, Spelling(i'.argument) + r');
    ArgumentsAgree(i.argument, r, i'.argument, r');
  }

  lemma {:induction false} EncodeIsNotEmpty(i: Instruction<Written>)
    ensures |Encode(i)| >= 2
  {
  }

  lemma {:induction false} FirstAgrees(done: seq<Instruction<Written>>, r: string, ins: seq<Instruction<Written>>)
    requires done != [] && Proper(done[0]) && AllProper(ins) && EncodeAll(ins) == EncodeAll(done) + r
    ensures ins != [] && ins[0] == done[0] && EncodeAll(ins[1..]) == EncodeAll(done[1..]) + r
  {
    Regroup(Encode(done[0]), EncodeAll(done[1..]), r);
    EncodeIsNotEmpty(done[0]);
    assert ins != [];
    PrefixCode(ins[0], EncodeAll(ins[1..]), done[0], EncodeAll(done[1..]) + r);
  }

  /** Whoever spells the same code after the same instructions goes on with the same ones. */
  lemma {:induction false} SamePrefix(done: seq<Instruction<Written>>, r: string, ins: seq<Instruction<Written>>)
    returns (after: seq<Instruction<Written>>)
    requires AllProper(done) && AllProper(ins) && EncodeAll(ins) == EncodeAll(done) + r
    ensures ins == done + after && EncodeAll(after) == r && AllProper(after)
    decreases |done|
  {
    if done == [] {
      assert EncodeAll(done) + r == r;
      after := ins;
    } else {
      FirstAgrees(done, r, ins);
      TailIsProper(done);
      TailIsProper(ins);
      after := SamePrefix(done[1..], r, ins[1..]);
      Rejoin(ins, done, after);
    }
  }

  lemma {:induction false} TailIsProper(ins: seq<Instruction<Written>>)
    requires ins != [] && AllProper(ins)
    ensures AllProper(ins[1..])
  {
  }

  lemma {:induction false} Rejoin(all: seq<Instruction<Written>>, first: seq<Instruction<Written>>,
    after: seq<Instruction<Written>>)
    requires all != [] && first != [] && all[0] == first[0] && all[1..] == first[1..] + after
    ensures all == first + after
  {
    assert all == [all[0]] + all[1..] && first == [first[0]] + first[1..];
  }

  /** Hence a text has at most one reading. */
  lemma {:induction false} OneReading(ins: seq<Instruction<Written>>, ins': seq<Instruction<Written>>)
    requires AllProper(ins) && AllProper(ins') && EncodeAll(ins) == EncodeAll(ins')
    ensures ins == ins'
  {
    assert EncodeAll(ins) + [] == EncodeAll(ins);
    var after := SamePrefix(ins, [], ins');
    if after != [] { EncodeIsNotEmpty(after[0]); }
  }

  lemma {:induction false} EncodeAllOfConcat(ins: seq<Instruction<Written>>, js: seq<Instruction<Written>>)
    ensures EncodeAll(ins + js) == EncodeAll(ins) + EncodeAll(js)
    decreases |ins|
  {
    if ins == [] {
      assert ins + js == js;
    } else {
      assert (ins + js)[1..] == ins[1..] + js;
      EncodeAllOfConcat(ins[1..], js);
      Regroup(Encode(ins[0]), EncodeAll(ins[1..]), EncodeAll(js));
    }
  }

  // The parser.

  /** The bits up to the next line feed, and the position behind it. */
  method ReadLabel(code: string, from: nat) returns (read: Option<(seq<bool>, nat)>)
    requires from <= |code|
    ensures read.Some? ==>
              from < read.value.1 <= |code| && code[from..] == Bits(read.value.0) + [LF] + code[read.value.1..]
    ensures read.None? ==> forall bits, r {:trigger Bits(bits) + [LF] + r} :: code[from..] != Bits(bits) + [LF] + r
  {
    var pos, bits := from, [];
    while pos < |code| && code[pos] != LF
      invariant from <= pos <= |code| && code[from..pos] == Bits(bits)
    {
      BitsOf(code, from, pos, bits);
      if code[pos] == SPACE {
        bits := bits + [false];
      } else if code[pos] == TAB {
        bits := bits + [true];
      } else {
        NoLabel(code, from, pos, bits);
        return None;
      }
      pos := pos + 1;
    }
    if pos >= |code| {
      NoLabel(code, from, pos, bits);
      return None;
    }
    assert code[from..] == code[from..pos] + [LF] + code[pos + 1..];
    return Some((bits, pos + 1));
  }

  lemma {:induction false} BitsOfConcat(bits: seq<bool>, b: bool)
    ensures Bits(bits + [b]) == Bits(bits) + [if b then TAB else SPACE]
    decreases |bits|
  {
    if bits != [] {
      assert (bits + [b])[1..] == bits[1..] + [b];
      BitsOfConcat(bits[1..], b);
    }
  }

  lemma {:induction false} BitsOf(code: string, from: nat, pos: nat, bits: seq<bool>)
    requires from <= pos < |code| && code[from..pos] == Bits(bits)
    ensures code[pos] == SPACE ==> code[from..pos + 1] == Bits(bits + [false])
    ensures code[pos] == TAB ==> code[from..pos + 1] == Bits(bits + [true])
  {
    BitsOfConcat(bits, false);
    BitsOfConcat(bits, true);
    assert code[from..pos + 1] == code[from..pos] + [code[pos]];
  }

  lemma {:induction false} BitsLength(bits: seq<bool>)
    ensures |Bits(bits)| == |bits|
    ensures forall k :: 0 <= k < |bits| ==> Bits(bits)[k] == if bits[k] then TAB else SPACE
    decreases |bits|
  {
    if bits != [] { BitsLength(bits[1..]); }
  }

  lemma {:induction false} LabelEnds(s: string, bits: seq<bool>, r: string)
    requires s == Bits(bits) + [LF] + r
    ensures |bits| < |s| && s[|bits|] == LF
    ensures forall k :: 0 <= k < |bits| ==> s[k] == SPACE || s[k] == TAB
  {
    BitsLength(bits);
  }

  /** Bits that do not end in a line feed spell no label. */
  lemma {:induction false} NoLabel(code: string, from: nat, pos: nat, bits: seq<bool>)
    requires from <= pos <= |code| && code[from..pos] == Bits(bits)
    requires pos < |code| ==> code[pos] != LF && code[pos] != SPACE && code[pos] != TAB
    ensures forall bits', r {:trigger Bits(bits') + [LF] + r} :: code[from..] != Bits(bits') + [LF] + r
  {
    var s := code[from..];
    BitsLength(bits);
    assert forall k :: 0 <= k < pos - from ==> s[k] == code[from..pos][k] && s[k] != LF;
    assert pos < |code| ==> s[pos - from] == code[pos];
    forall bits', r {:trigger Bits(bits') + [LF] + r} ensures s != Bits(bits') + [LF] + r {
      if s == Bits(bits') + [LF] + r {
        LabelEnds(s, bits', r);
        assert false;
      }
    }
  }

  /** A sign, then a label's bits. */
  method ReadNumber(code: string, from: nat) returns (read: Option<(Written, nat)>)
    requires from <= |code|
    ensures read.Some? ==>
              from < read.value.1 <= |code| && code[from..] == Spelling(Number(read.value.0)) + code[read.value.1..]
    ensures read.None? ==> forall n, r {:trigger Spelling(Number(n)) + r} :: code[from..] != Spelling(Number(n)) + r
  {
    if from >= |code| || (code[from] != TAB && code[from] != SPACE) { return None; }
    var bits := ReadLabel(code, from + 1);
    var s := code[from..];
    assert s[1..] == code[from + 1..];
    if bits.None? {
      forall n, r {:trigger Spelling(Number(n)) + r} ensures s != Spelling(Number(n)) + r {
        if s == Spelling(Number(n)) + r {
          NumberTail(s, n, r);
          assert false;
        }
      }
      return None;
    }
    read := Some((Written(code[from] == TAB, bits.value.0), bits.value.1));
    assert s == [s[0]] + s[1..];
  }

  ghost predicate Reads(s: string, i: Instruction<Written>, r: string) {
    Proper(i) && s == Encode(i) + r
  }

  lemma {:induction false} HeadThenArgument(s: string, op: Op, a: Argument<Written>, r: string)
    requires Proper(Instruction(op, a)) && Head(op) <= s && s[|Head(op)|..] == Spelling(a) + r
    ensures Reads(s, Instruction(op, a), r)
  {
    Regroup(Head(op), Spelling(a), r);
  }

  /** What an instruction at the start of s says about s. */
  lemma {:induction false} ReadsHead(s: string, i: Instruction<Written>, r: string)
    requires Reads(s, i, r)
    ensures NextOp(s) == Some(i.op) && Head(i.op) <= s && s[|Head(i.op)|..] == Spelling(i.argument) + r
  {
    Regroup(Head(i.op), Spelling(i.argument), r);
    OpIsRead(i.op, Spelling(i.argument) + r);
  }

  lemma {:induction false} NoHead(s: string)
    requires NextOp(s).None?
    ensures forall i, r :: !Reads(s, i, r)
  {
    forall i, r ensures !Reads(s, i, r) {
      if Reads(s, i, r) { ReadsHead(s, i, r); }
    }
  }

  lemma {:induction false} NoArgumentAfter(s: string, op: Op)
    requires NextOp(s) == Some(op) && Head(op) <= s
    requires forall a: Argument<Written>, r {:trigger Spelling(a) + r} :: Proper(Instruction(op, a)) ==>
      s[|Head(op)|..] != Spelling(a) + r
    ensures forall i, r :: !Reads(s, i, r)
  {
    forall i, r ensures !Reads(s, i, r) {
      if Reads(s, i, r) { ReadsHead(s, i, r); }
    }
  }

  method AfterHead(code: string, from: nat, op: Op) returns (pos: nat)
    requires from < |code| && NextOp(code[from..]) == Some(op)
    ensures pos == from + |Head(op)| && from < pos <= |code|
    ensures Head(op) <= code[from..] && code[from..][|Head(op)|..] == code[pos..]
  {
    OpWasRead(code[from..]);
    pos := from + |Head(op)|;
  }

  method ReadArgument(code: string, from: nat, op: Op) returns (read: Option<(Argument<Written>, nat)>)
    requires from <= |code|
    ensures read.Some? ==>
              && from <= read.value.1 <= |code| && Proper(Instruction(op, read.value.0))
              && code[from..] == Spelling(read.value.0) + code[read.value.1..]
    ensures read.None? ==>
              forall a: Argument<Written>, r {:trigger Spelling(a) + r} :: Proper(Instruction(op, a)) ==>
                code[from..] != Spelling(a) + r
  {
    if TakesNumber(op) {
      var n := ReadNumber(code, from);
      return if n.None? then None else Some((Number(n.value.0), n.value.1));
    }
    if TakesLabel(op) {
      var bits := ReadLabel(code, from);
      return if bits.None? then None else Some((Label(bits.value.0), bits.value.1));
    }
    return Some((NoArgument, from));
  }

  /** The instruction at a position, None iff no instruction is spelled there. */
  method ReadInstruction(code: string, from: nat) returns (read: Option<(Instruction<Written>, nat)>)
    requires from < |code|
    ensures read.Some? ==> from < read.value.1 <= |code| && Reads(code[from..], read.value.0, code[read.value.1..])
    ensures read.None? ==> forall i, r :: !Reads(code[from..], i, r)
  {
    var op := NextOp(code[from..]);
    if op.None? {
      NoHead(code[from..]);
      return None;
    }
    var pos := AfterHead(code, from, op.value);
    var argument := ReadArgument(code, pos, op.value);
    if argument.None? {
      NoArgumentAfter(code[from..], op.value);
      return None;
    }
    HeadThenArgument(code[from..], op.value, argument.value.0, code[argument.value.1..]);
    return Some((Instruction(op.value, argument.value.0), argument.value.1));
  }

  lemma {:induction false} FirstIsRead(ins: seq<Instruction<Written>>, s: string)
    requires AllProper(ins) && EncodeAll(ins) == s && s != []
    ensures exists i, r :: Reads(s, i, r)
  {
    assert Reads(s, ins[0], EncodeAll(ins[1..]));
  }

  /** Nothing spells a code in which no instruction follows those read so far. */
  lemma {:induction false} Unreadable(done: seq<Instruction<Written>>, rest: string, ins: seq<Instruction<Written>>)
    requires AllProper(done) && AllProper(ins) && rest != []
    requires forall i, r :: !Reads(rest, i, r)
    ensures EncodeAll(ins) != EncodeAll(done) + rest
  {
    if EncodeAll(ins) == EncodeAll(done) + rest {
      var after := SamePrefix(done, rest, ins);
      FirstIsRead(after, rest);
    }
  }

  /** What the parser returns for a code, with the reading it found. */
  ghost predicate Parses(code: string, parsed: Option<(seq<Instruction<int>>, map<seq<bool>, nat>)>,
                         reading: seq<Instruction<Written>>) {
    if parsed.Some? then
      && AllProper(reading) && code == EncodeAll(reading)
      && parsed.value.0 == Meanings(reading) && MarksLast(parsed.value.1, parsed.value.0)
    else
      forall ins :: AllProper(ins) ==> EncodeAll(ins) != code
  }

  /**
   Main result: the parser accepts exactly the codes that spell some instructions, and returns what those mean with
   the last index of every label. Which they are is unique (OneReading).
   */
  method Parse(code: string)
    returns (parsed: Option<(seq<Instruction<int>>, map<seq<bool>, nat>)>, ghost reading: seq<Instruction<Written>>)
    ensures Parses(code, parsed, reading)
    ensures parsed.Some? <==> exists ins :: AllProper(ins) && EncodeAll(ins) == code
    ensures forall ins :: AllProper(ins) && EncodeAll(ins) == code ==>
              parsed.Some? && parsed.value.0 == Meanings(ins) && MarksLast(parsed.value.1, Meanings(ins))
  {
    var pos := 0;
    var instructions: seq<Instruction<int>>, labels: map<seq<bool>, nat> := [], map[];
    reading := [];
    while pos < |code|
      invariant 0 <= pos <= |code|
      invariant AllProper(reading) && code == EncodeAll(reading) + code[pos..]
      invariant instructions == Meanings(reading) && MarksLast(labels, instructions)
    {
      var read := ReadInstruction(code, pos);
      if read.None? {
        forall ins | AllProper(ins) ensures EncodeAll(ins) != code {
          Unreadable(reading, code[pos..], ins);
        }
        return None, reading;
      }
      var instruction := read.value.0;
      MeaningsExtended(reading, instruction);
      EncodeExtended(reading, instruction, code[read.value.1..]);
      var meaning := Meaning(instruction);
      MarksExtended(labels, instructions, meaning);
      if meaning.op == Mark { labels := labels[meaning.argument.bits := |instructions|]; }
      instructions, reading, pos := instructions + [meaning], reading + [instruction], read.value.1;
    }
    assert EncodeAll(reading) + [] == EncodeAll(reading);
    forall ins | AllProper(ins) && EncodeAll(ins) == code ensures ins == reading {
      OneReading(ins, reading);
    }
    return Some((instructions, labels)), reading;
  }

  lemma {:induction false} MarksExtended(labels: map<seq<bool>, nat>, ins: seq<Instruction<int>>, i: Instruction<int>)
    requires MarksLast(labels, ins) && Proper(i)
    ensures MarksLast(if i.op == Mark then labels[i.argument.bits := |ins|] else labels, ins + [i])
  {
  }

  lemma {:induction false} EncodeExtended(done: seq<Instruction<Written>>, i: Instruction<Written>, r: string)
    ensures EncodeAll(done + [i]) + r == EncodeAll(done) + (Encode(i) + r)
  {
    EncodeAllOfConcat(done, [i]);
    assert EncodeAll([i]) == Encode(i);
    Regroup(EncodeAll(done), Encode(i), r);
  }

  lemma {:induction false} MeaningsExtended(done: seq<Instruction<Written>>, i: Instruction<Written>)
    ensures Meanings(done + [i]) == Meanings(done) + [Meaning(i)]
  {
  }

  // Printing.

  /** A nonnegative number in binary, most significant bit first. */
  function Binary(n: nat): (bits: seq<bool>) {
    if n < 2 then [n == 1] else Binary(n / 2) + [n % 2 == 1]
  }

  function Canonical(i: Instruction<int>): Instruction<Written> {
    Instruction(i.op, match i.argument
                      case NoArgument => NoArgument
                      case Number(n) => Number(Written(n < 0, Binary(if n < 0 then -n else n)))
                      case Label(bits) => Label(bits))
  }

  function Canonicals(ins: seq<Instruction<int>>): (cs: seq<Instruction<Written>>)
    ensures |cs| == |ins| && forall k :: 0 <= k < |ins| ==> cs[k] == Canonical(ins[k])
  {
    if ins == [] then [] else [Canonical(ins[0])] + Canonicals(ins[1..])
  }

  lemma {:induction false} BinaryRoundTrip(n: nat)
    ensures Value(Binary(n)) == n
    decreases n
  {
    if n >= 2 {
      BinaryRoundTrip(n / 2);
      assert Binary(n)[..|Binary(n)| - 1] == Binary(n / 2);
    } else {
      assert Binary(n)[..0] == [];
    }
  }

  /** Leading zeros change nothing, and no bits at all are zero. */
  lemma {:induction false} LeadingZeros(zeros: seq<bool>, bits: seq<bool>)
    requires true !in zeros
    ensures Value(zeros + bits) == Value(bits)
    decreases |zeros| + |bits|
  {
    var all := zeros + bits;
    if bits != [] {
      assert all[..|all| - 1] == zeros + bits[..|bits| - 1];
      LeadingZeros(zeros, bits[..|bits| - 1]);
    } else if zeros != [] {
      assert all == zeros && zeros[|zeros| - 1] in zeros && all[..|all| - 1] == zeros[..|zeros| - 1] + [];
      LeadingZeros(zeros[..|zeros| - 1], []);
    }
  }

  /** Every list of instructions can be printed, and means itself when it is read back. */
  lemma {:induction false} RoundTrip(ins: seq<Instruction<int>>)
    requires AllProper(ins)
    ensures AllProper(Canonicals(ins)) && Meanings(Canonicals(ins)) == ins
    ensures forall reading :: AllProper(reading) && EncodeAll(reading) == EncodeAll(Canonicals(ins)) ==>
      Meanings(reading) == ins
  {
    forall k | 0 <= k < |ins| ensures Meaning(Canonical(ins[k])) == ins[k] && Proper(Canonical(ins[k])) {
      if ins[k].argument.Number? {
        var n := ins[k].argument.n;
        BinaryRoundTrip(if n < 0 then -n else n);
      }
    }
    forall reading | AllProper(reading)
      && EncodeAll(reading) == EncodeAll(Canonicals(ins)) ensures Meanings(reading) == ins {
      OneReading(reading, Canonicals(ins));
    }
  }

  /** The label map is settled by the instructions. */
  lemma {:induction false} MarksLastIsUnique(labels: map<seq<bool>, nat>, labels': map<seq<bool>, nat>,
    ins: seq<Instruction<int>>)
    requires MarksLast(labels, ins) && MarksLast(labels', ins)
    ensures labels == labels'
  {
    assert forall name :: name in labels ==> ins[labels[name]].argument.bits == name;
    assert forall name :: name in labels' ==> ins[labels'[name]].argument.bits == name;
  }

  /** Every label with its last index, read off the instructions. */
  function LabelsOf(ins: seq<Instruction<int>>): map<seq<bool>, nat> {
    if ins == [] then map[]
    else
      var labels, last := LabelsOf(ins[..|ins| - 1]), ins[|ins| - 1];
      if last.op == Mark && last.argument.Label? then labels[last.argument.bits := |ins| - 1] else labels
  }

  lemma {:induction false} LabelsAreLast(ins: seq<Instruction<int>>)
    requires AllProper(ins)
    ensures MarksLast(LabelsOf(ins), ins)
    decreases |ins|
  {
    if ins != [] {
      var init, last := ins[..|ins| - 1], ins[|ins| - 1];
      LabelsAreLast(init);
      assert Proper(last) && ins == init + [last];
      MarksExtended(LabelsOf(init), init, last);
    }
  }

  /** Main result for printing and parsing together: whatever is printed is parsed to itself, with its own labels. */
  lemma {:induction false} ParsedBack(ins: seq<Instruction<int>>,
    parsed: Option<(seq<Instruction<int>>, map<seq<bool>, nat>)>,
                   reading: seq<Instruction<Written>>)
    requires AllProper(ins) && Parses(EncodeAll(Canonicals(ins)), parsed, reading)
    ensures parsed == Some((ins, LabelsOf(ins)))
  {
    RoundTrip(ins);
    LabelsAreLast(ins);
    MarksLastIsUnique(parsed.value.1, LabelsOf(ins), ins);
  }

  // The adder with which the repository tests the interpreter.

  function PushNumber(n: int): Instruction<int> {
    Instruction(Push, Number(n))
  }

  function Plain(op: Op): Instruction<int> {
    Instruction(op, NoArgument)
  }

  const AB_READS := [PushNumber(0), Plain(ReadNum), PushNumber(1), Plain(ReadNum)]
  const AB_FETCHES := [PushNumber(0), Plain(Retrieve), PushNumber(1), Plain(Retrieve)]
  const AB_PRINTS := [Plain(Add), Plain(OutNum), PushNumber(10), Plain(OutChar)]

  /** Two numbers are read into the heap, fetched and added, and the sum is printed with a line feed. */
  const AB_INSTRUCTIONS: seq<Instruction<int>> := AB_READS + AB_FETCHES + AB_PRINTS + [Plain(Exit)]

  /** The text of the program, as the test writes it out. */
  const AB_READS_TEXT := "    \n" + "\t\n\t\t" + "   \t\n" + "\t\n\t\t"
  const AB_FETCHES_TEXT := "    \n" + "\t\t\t" + "   \t\n" + "\t\t\t"
  const AB_PRINTS_TEXT := "\t   " + "\t\n \t" + "   \t \t \n" + "\t\n  "
  const AB_PROGRAM := AB_READS_TEXT + AB_FETCHES_TEXT + AB_PRINTS_TEXT + "\n\n\n"

  lemma {:induction false} PushSpelled(n: nat)
    ensures Encode(Canonical(PushNumber(n))) == "   " + Bits(Binary(n)) + "\n"
  {
  }

  lemma {:induction false} WrittenNumbers()
    ensures Encode(Canonical(PushNumber(0))) == "    \n" && Encode(Canonical(PushNumber(1))) == "   \t\n"
  {
    PushSpelled(0);
    PushSpelled(1);
    assert Bits([false]) == " " && Bits([true]) == "\t";
  }

  lemma {:induction false} WrittenTen()
    ensures Encode(Canonical(PushNumber(10))) == "   \t \t \n"
  {
    PushSpelled(10);
    assert Binary(1) == [true] && Binary(2) == [true, false] && Binary(5) == [true, false, true];
    assert Binary(10) == [true, false, true, false];
    assert Bits([false]) == " " && Bits([true, false]) == "\t ";
    assert Bits([false, true, false]) == " \t " && Bits([true, false, true, false]) == "\t \t ";
  }

  lemma {:induction false} EncodeFour(i: Instruction<int>, j: Instruction<int>, k: Instruction<int>,
    l: Instruction<int>)
    ensures EncodeAll(Canonicals([i, j, k, l])) ==
            Encode(Canonical(i)) + Encode(Canonical(j)) + Encode(Canonical(k)) + Encode(Canonical(l))
  {
    var c, d, e, f := Canonical(i), Canonical(j), Canonical(k), Canonical(l);
    assert Canonicals([i, j, k, l]) == [c] + [d] + [e] + [f];
    EncodeAllOfConcat([c] + [d] + [e], [f]);
    EncodeAllOfConcat([c] + [d], [e]);
    EncodeAllOfConcat([c], [d]);
  }

  lemma {:induction false} CanonicalsOfConcat(ins: seq<Instruction<int>>, js: seq<Instruction<int>>)
    ensures EncodeAll(Canonicals(ins + js)) == EncodeAll(Canonicals(ins)) + EncodeAll(Canonicals(js))
  {
    var both := Canonicals(ins) + Canonicals(js);
    forall k | 0 <= k < |both| ensures Canonicals(ins + js)[k] == both[k] {}
    assert Canonicals(ins + js) == both;
    EncodeAllOfConcat(Canonicals(ins), Canonicals(js));
  }

  lemma {:induction false} ReadsPrinted()
    ensures EncodeAll(Canonicals(AB_READS)) == AB_READS_TEXT
  {
    WrittenNumbers();
    EncodeFour(PushNumber(0), Plain(ReadNum), PushNumber(1), Plain(ReadNum));
    assert Encode(Canonical(Plain(ReadNum))) == "\t\n\t\t";
  }

  lemma {:induction false} FetchesPrinted()
    ensures EncodeAll(Canonicals(AB_FETCHES)) == AB_FETCHES_TEXT
  {
    WrittenNumbers();
    EncodeFour(PushNumber(0), Plain(Retrieve), PushNumber(1), Plain(Retrieve));
    assert Encode(Canonical(Plain(Retrieve))) == "\t\t\t";
  }

  lemma {:induction false} PlainSpelled(op: Op)
    ensures Encode(Canonical(Plain(op))) == Head(op)
  {
    assert Head(op) + [] == Head(op);
  }

  lemma {:induction false} PrintsPrinted()
    ensures EncodeAll(Canonicals(AB_PRINTS)) == AB_PRINTS_TEXT
  {
    WrittenTen();
    EncodeFour(Plain(Add), Plain(OutNum), PushNumber(10), Plain(OutChar));
    PlainSpelled(Add);
    PlainSpelled(OutNum);
    PlainSpelled(OutChar);
  }

  lemma {:induction false} ExitPrinted()
    ensures EncodeAll(Canonicals([Plain(Exit)])) == "\n\n\n"
  {
    assert EncodeAll(Canonicals([Plain(Exit)])) == Encode(Canonical(Plain(Exit)));
  }

  lemma {:induction false} ABIsPrinted()
    ensures EncodeAll(Canonicals(AB_INSTRUCTIONS)) == AB_PROGRAM
  {
    ReadsPrinted();
    FetchesPrinted();
    PrintsPrinted();
    ExitPrinted();
    CanonicalsOfConcat(AB_READS + AB_FETCHES + AB_PRINTS, [Plain(Exit)]);
    CanonicalsOfConcat(AB_READS + AB_FETCHES, AB_PRINTS);
    CanonicalsOfConcat(AB_READS, AB_FETCHES);
  }

  lemma {:induction false} LabelsOfUnmarked(ins: seq<Instruction<int>>)
    requires forall i :: i in ins ==> i.op != Mark
    ensures LabelsOf(ins) == map[]
    decreases |ins|
  {
    if ins != [] {
      assert ins[|ins| - 1] in ins;
      LabelsOfUnmarked(ins[..|ins| - 1]);
    }
  }

  /** The adder is read as the instructions it is meant to be. */
  lemma {:induction false} ABIsParsed(parsed: Option<(seq<Instruction<int>>, map<seq<bool>, nat>)>,
    reading: seq<Instruction<Written>>)
    requires Parses(AB_PROGRAM, parsed, reading)
    ensures parsed == Some((AB_INSTRUCTIONS, map[]))
  {
    ABIsPrinted();
    ABIsProper();
    ParsedBack(AB_INSTRUCTIONS, parsed, reading);
    LabelsOfUnmarked(AB_INSTRUCTIONS);
  }

  lemma {:induction false} ABIsProper()
    ensures AllProper(AB_INSTRUCTIONS)
    ensures forall i :: i in AB_INSTRUCTIONS ==> i.op != Mark
  {
    ProperFour(PushNumber(0), Plain(ReadNum), PushNumber(1), Plain(ReadNum));
    ProperFour(PushNumber(0), Plain(Retrieve), PushNumber(1), Plain(Retrieve));
    ProperFour(Plain(Add), Plain(OutNum), PushNumber(10), Plain(OutChar));
    forall i | i in AB_INSTRUCTIONS ensures Proper(i) && i.op != Mark {
      assert i in AB_READS || i in AB_FETCHES || i in AB_PRINTS || i == Plain(Exit);
    }
    forall k | 0 <= k < |AB_INSTRUCTIONS| ensures Proper(AB_INSTRUCTIONS[k]) {
      assert AB_INSTRUCTIONS[k] in AB_INSTRUCTIONS;
    }
  }

  lemma {:induction false} ProperFour(i: Instruction<int>, j: Instruction<int>, k: Instruction<int>,
    l: Instruction<int>)
    requires Proper(i) && Proper(j) && Proper(k) && Proper(l)
    requires i.op != Mark && j.op != Mark && k.op != Mark && l.op != Mark
    ensures forall m :: m in [i, j, k, l] ==> Proper(m) && m.op != Mark
  {
  }
}
