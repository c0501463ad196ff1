/**
 From source file to run: what scripts/brainfuck.py keeps of a file, and the
 bracket check internal/compile/script_compilers.go makes on its bytes.
 */
module BrainfuckSource {
  import opened Common
  import opened Brainfuck

  function Commands(text: string): (program: string)
    ensures forall ch :: ch in program ==> IsCommand(ch)
  {
    if text == "" then ""
    else (if IsCommand(text[0]) then [text[0]] else "") + Commands(text[1..])
  }

  /** UTF-8 (section 3 of RFC 3629). */
  function EncodeChar(ch: char): seq<byte> {
    var c := ch as int;
    if c < 0x80 then [c]
    else if c < 0x800 then [0xC0 + c / 0x40, 0x80 + c % 0x40]
    else if c < 0x10000 then [0xE0 + c / 0x1000, 0x80 + c / 0x40 % 0x40, 0x80 + c % 0x40]
    else [0xF0 + c / 0x40000, 0x80 + c / 0x1000 % 0x40, 0x80 + c / 0x40 % 0x40, 0x80 + c % 0x40]
  }

  function Encode(text: string): seq<byte> {
    if text == "" then [] else EncodeChar(text[0]) + Encode(text[1..])
  }

  /** The depth count over bytes, started at `depth`. */
  function Scan(data: seq<byte>, depth: nat): bool {
    if data == [] then depth == 0
    else if data[0] == 91 then Scan(data[1..], depth + 1)
    else if data[0] == 93 then depth > 0 && Scan(data[1..], depth - 1)
    else Scan(data[1..], depth)
  }

  method CheckBrackets(data: seq<byte>) returns (ok: bool)
    ensures ok <==> Scan(data, 0)
  {
    var depth := 0;
    for i := 0 to |data|
      invariant depth >= 0 && Scan(data, 0) == Scan(data[i..], depth)
    {
      assert data[i..][1..] == data[i + 1..];
      if data[i] == 91 {
        depth := depth + 1;
      } else if data[i] == 93 {
        depth := depth - 1;
        if depth < 0 { return false; }
      }
    }
    return depth == 0;
  }

  lemma {:induction false} ScanSkips(skipped: seq<byte>, data: seq<byte>, depth: nat)
    requires forall i :: 0 <= i < |skipped| ==> skipped[i] != 91 && skipped[i] != 93
    ensures Scan(skipped + data, depth) == Scan(data, depth)
  {
    if skipped == [] {
      assert skipped + data == data;
    } else {
      assert (skipped + data)[1..] == skipped[1..] + data;
      ScanSkips(skipped[1..], data, depth);
    }
  }

  function ScanCommands(program: string, depth: nat): bool {
    if program == "" then depth == 0
    else if program[0] == '[' then ScanCommands(program[1..], depth + 1)
    else if program[0] == ']' then depth > 0 && ScanCommands(program[1..], depth - 1)
    else ScanCommands(program[1..], depth)
  }

  lemma {:induction false} NoBracketBytes(ch: char)
    requires ch != '[' && ch != ']'
    ensures forall i :: 0 <= i < |EncodeChar(ch)| ==> EncodeChar(ch)[i] != 91 && EncodeChar(ch)[i] != 93
  {
  }

  lemma {:induction false} FirstOfText(text: string)
    requires text != ""
    ensures text[0] == '[' ==> Encode(text)[0] == 91 && Encode(text)[1..] == Encode(text[1..])
    ensures text[0] == ']' ==> Encode(text)[0] == 93 && Encode(text)[1..] == Encode(text[1..])
    ensures Encode(text) == EncodeChar(text[0]) + Encode(text[1..])
  {
  }

  lemma {:induction false} FirstCommand(text: string)
    requires text != ""
    ensures if IsCommand(text[0]) then
              Commands(text) != "" && Commands(text)[0] == text[0] && Commands(text)[1..] == Commands(text[1..])
            else Commands(text) == Commands(text[1..])
  {
  }

  lemma {:induction false} ScanSeesCommandsOnly(text: string, depth: nat)
    ensures Scan(Encode(text), depth) == ScanCommands(Commands(text), depth)
  {
    if text != "" {
      var ch, rest := text[0], text[1..];
      FirstOfText(text);
      FirstCommand(text);
      if ch == '[' {
        ScanSeesCommandsOnly(rest, depth + 1);
      } else if ch == ']' {
        if depth > 0 { ScanSeesCommandsOnly(rest, depth - 1); }
      } else {
        NoBracketBytes(ch);
        ScanSkips(EncodeChar(ch), Encode(rest), depth);
        ScanSeesCommandsOnly(rest, depth);
      }
    }
  }

  lemma {:induction false} ScanIsDepth(program: string, i: nat)
    requires i <= |program| && Depth(program, i) >= 0
    ensures ScanCommands(program[i..], Depth(program, i)) <==>
      NeverNegative(program, i) && Depth(program, |program|) == 0
    decreases |program| - i
  {
    if i < |program| {
      assert program[i..][1..] == program[i + 1..] && program[i..][0] == program[i];
      if Depth(program, i + 1) >= 0 {
        ScanIsDepth(program, i + 1);
        assert NeverNegative(program, i) <==> NeverNegative(program, i + 1);
      } else {
        assert !NeverNegative(program, i);
        assert program[i] == ']' && Depth(program, i) == 0;
      }
    }
  }

  /** The compile-time check accepts a UTF-8 source exactly when the interpreter can build its jump table. */
  lemma {:induction false} CheckAcceptsWhatLoads(text: string)
    ensures Scan(Encode(text), 0) <==> WellBracketed(Commands(text))
  {
    ScanSeesCommandsOnly(text, 0);
    var program := Commands(text);
    ScanIsDepth(program, 0);
    assert program[0..] == program && Depth(program, 0) == 0;
  }

  /** The interpreter from source text to output, stopped after `fuel` machine steps. */
  method Interpret(text: string, data: seq<byte>, fuel: nat) returns (r: Result<(bool, seq<byte>), BracketError>)
    ensures r.Ok? <==> WellBracketed(Commands(text))
    ensures r.Err? ==> (r.error.UnmatchedClosing? <==> !NeverNegative(Commands(text), 0))
    ensures r.Ok? ==> exists jump ::
      && BracketTable(Commands(text), jump)
      && var m := Steps(Commands(text), jump, fuel, Machine(0, Initial(data)));
         r.value == (m.pc >= |Commands(text)|, m.c.out)
  {
    var program := Commands(text);
    var table := BuildJump(program);
    if table.Err? { return Err(table.error); }
    var halted, out := Execute(program, table.value, data, fuel);
    return Ok((halted, out));
  }
}
