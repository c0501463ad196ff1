/**
 Source text of Unlambda: the parser of scripts/unlambda.py with its explicit
 stack of pending applications, the counter of internal/compile/esolang_compilers.go,
 and an independent grammar both are proved against.
 */
module UnlambdaSyntax {
  import opened Common
  import opened UnlambdaMachine

  const BACKTICK: byte := 96
  const HASH: byte := 35
  const DOT: byte := 46
  const QUESTION: byte := 63
  const NEWLINE: byte := 10

  datatype SyntaxError = TrailingInput(at: nat) | EndAfter(at: nat) | UnknownCharacter(at: nat) | EndOfSource

  predicate IsSpace(b: byte) {
    b == 32 || 9 <= b <= 13
  }

  function Lower(b: byte): byte {
    if 65 <= b <= 90 then b + 32 else b
  }

  function Builtin(b: byte): Option<Value> {
    if b == 64 then Some(Read)
    else if b == 124 then Some(Pipe)
    else match Lower(b)
      case 107 => Some(K)
      case 115 => Some(S)
      case 105 => Some(I)
      case 118 => Some(V)
      case 100 => Some(D)
      case 99 => Some(C)
      case 101 => Some(E)
      case 114 => Some(Dot(10))
      case _ => None
  }

  predicate OneLine(s: seq<byte>, lo: nat, hi: nat)
    requires hi <= |s|
  {
    forall i :: lo <= i < hi ==> s[i] != NEWLINE
  }

  /** The position after the line containing `pos`, or the end of the source. */
  function NextLine(s: seq<byte>, pos: nat): (next: nat)
    requires pos <= |s|
    ensures pos <= next <= |s|
    decreases |s| - pos
  {
    if pos == |s| then pos
    else if s[pos] == NEWLINE then pos + 1
    else NextLine(s, pos + 1)
  }

  lemma {:induction false} NextLineIsTheNext(s: seq<byte>, pos: nat)
    requires pos <= |s|
    ensures var next := NextLine(s, pos);
            (next == |s| && OneLine(s, pos, next))
              || (pos < next && s[next - 1] == NEWLINE && OneLine(s, pos, next - 1))
    decreases |s| - pos
  {
    if pos < |s| && s[pos] != NEWLINE { NextLineIsTheNext(s, pos + 1); }
  }

  // The parser, as a function of its loop variables.

  type Pending = seq<Option<Expr>>

  /** Hands a finished node to the innermost pending application, completing those that had an operator. */
  function Plug(pending: Pending, node: Expr): (r: (Pending, Option<Expr>))
    ensures r.1.Some? ==> r.0 == []
  {
    if pending == [] then ([], Some(node))
    else
      var rest := pending[..|pending| - 1];
      match pending[|pending| - 1]
      case None => (rest + [Some(node)], None)
      case Some(operator) => Plug(rest, App(operator, node))
  }

  function ParseFrom(s: seq<byte>, pos: nat, pending: Pending, result: Option<Expr>): Result<Expr, SyntaxError>
    requires pos <= |s|
    decreases |s| - pos
  {
    if pos == |s| then
      if result.Some? then Ok(result.value) else Err(EndOfSource)
    else
      var b := s[pos];
      if IsSpace(b) then ParseFrom(s, pos + 1, pending, result)
      else if b == HASH then ParseFrom(s, NextLine(s, pos + 1), pending, result)
      else if result.Some? then Err(TrailingInput(pos))
      else if b == BACKTICK then ParseFrom(s, pos + 1, pending + [None], result)
      else if b == DOT || b == QUESTION then
        if pos + 1 == |s| then Err(EndAfter(pos))
        else
          var (p, r) := Plug(pending, Val(if b == DOT then Dot(s[pos + 1]) else Cmp(s[pos + 1])));
          ParseFrom(s, pos + 2, p, r)
      else match Builtin(b)
        case None => Err(UnknownCharacter(pos))
        case Some(v) =>
          var (p, r) := Plug(pending, Val(v));
          ParseFrom(s, pos + 1, p, r)
  }

  method Parse(source: seq<byte>) returns (r: Result<Expr, SyntaxError>)
    ensures r == ParseFrom(source, 0, [], None)
  {
    var pending: Pending := [];
    var result: Option<Expr> := None;
    var pos := 0;
    while pos < |source|
      invariant pos <= |source|
      invariant ParseFrom(source, 0, [], None) == ParseFrom(source, pos, pending, result)
    {
      var b := source[pos];
      pos := pos + 1;
      if IsSpace(b) { continue; }
      if b == HASH {
        pos := NextLine(source, pos);
        continue;
      }
      if result.Some? { return Err(TrailingInput(pos - 1)); }
      if b == BACKTICK {
        pending := pending + [None];
        continue;
      }
      var node: Expr;
      if b == DOT || b == QUESTION {
        if pos >= |source| { return Err(EndAfter(pos - 1)); }
        node := Val(if b == DOT then Dot(source[pos]) else Cmp(source[pos]));
        pos := pos + 1;
      } else {
        var builtin := Builtin(b);
        if builtin.None? { return Err(UnknownCharacter(pos - 1)); }
        node := Val(builtin.value);
      }
      ghost var plugged := Plug(pending, node);
      var stored := false;
      while pending != [] && !stored
        invariant plugged == if stored then (pending, None) else Plug(pending, node)
        decreases |pending|, !stored
      {
        var operator := pending[|pending| - 1];
        if operator.None? {
          pending := pending[..|pending| - 1] + [Some(node)];
          stored := true;
        } else {
          pending := pending[..|pending| - 1];
          node := App(operator.value, node);
        }
      }
      if !stored { result := Some(node); }
    }
    return if result.None? then Err(EndOfSource) else Ok(result.value);
  }

  // The compile-time check.

  function ValidateFrom(s: seq<byte>, offset: nat, pending: nat): Option<SyntaxError>
    requires offset <= |s|
    decreases |s| - offset
  {
    if offset == |s| then
      if pending != 0 then Some(EndOfSource) else None
    else
      var b := s[offset];
      if IsSpace(b) then ValidateFrom(s, offset + 1, pending)
      else if b == HASH then ValidateFrom(s, NextLine(s, offset + 1), pending)
      else if pending == 0 then Some(TrailingInput(offset))
      else if b == BACKTICK then ValidateFrom(s, offset + 1, pending + 1)
      else if b == DOT || b == QUESTION then
        if offset + 1 >= |s| then Some(EndAfter(offset)) else ValidateFrom(s, offset + 2, pending - 1)
      else if Builtin(b).Some? then ValidateFrom(s, offset + 1, pending - 1)
      else Some(UnknownCharacter(offset))
  }

  method ValidateUnlambda(data: seq<byte>) returns (problem: Option<SyntaxError>)
    ensures problem == ValidateFrom(data, 0, 1)
  {
    var pending := 1;
    var offset := 0;
    while offset < |data|
      invariant 0 <= pending && 0 <= offset <= |data|
      invariant ValidateFrom(data, 0, 1) == ValidateFrom(data, offset, pending)
    {
      var b := data[offset];
      if IsSpace(b) {
        offset := offset + 1;
        continue;
      }
      if b == HASH {
        ghost var next := NextLine(data, offset + 1);
        ghost var hash := offset;
        while offset < |data| && data[offset] != NEWLINE
          invariant hash <= offset <= |data|
          invariant offset < next || offset == next == |data|
          invariant offset > hash ==> NextLine(data, offset) == next
        {
          offset := offset + 1;
        }
        offset := if offset < |data| then offset + 1 else offset;
        continue;
      }
      if pending == 0 { return Some(TrailingInput(offset)); }
      if b == BACKTICK {
        pending := pending + 1;
      } else if b == DOT || b == QUESTION {
        if offset + 1 >= |data| { return Some(EndAfter(offset)); }
        offset := offset + 1;
        pending := pending - 1;
      } else if Builtin(b).Some? {
        pending := pending - 1;
      } else {
        return Some(UnknownCharacter(offset));
      }
      offset := offset + 1;
    }
    return if pending != 0 then Some(EndOfSource) else None;
  }

  /** Applications still waiting for their operator. */
  function OpenOperators(pending: Pending): nat {
    if pending == [] then 0
    else OpenOperators(pending[..|pending| - 1]) + (if pending[|pending| - 1].None? then 1 else 0)
  }

  function Counter(pending: Pending, result: Option<Expr>): nat {
    if result.Some? then 0 else OpenOperators(pending) + 1
  }

  lemma {:induction false} PlugDecrementsCounter(pending: Pending, node: Expr)
    ensures Counter(Plug(pending, node).0, Plug(pending, node).1) == Counter(pending, None) - 1
  {
    if pending != [] {
      var rest := pending[..|pending| - 1];
      match pending[|pending| - 1] {
        case None => assert (rest + [Some(node)])[..|rest|] == rest;
        case Some(operator) => PlugDecrementsCounter(rest, App(operator, node));
      }
    }
  }

  /** At a token, parser and check both go on behind it or both fail with the same error. */
  lemma {:induction false} TokenIsMirrored(s: seq<byte>, pos: nat, pending: Pending)
    requires pos < |s| && !IsSpace(s[pos]) && s[pos] != HASH && s[pos] != BACKTICK
    ensures var token := ReadToken(s, pos);
            if token.None? then
              ParseFrom(s, pos, pending, None).Err?
              && ValidateFrom(s, pos, Counter(pending, None)) == Some(ParseFrom(s, pos, pending, None).error)
            else
              var (v, hi) := token.value;
              ParseFrom(s, pos, pending, None) == ParseFrom(s, hi, Plug(pending, Val(v)).0, Plug(pending, Val(v)).1)
              && ValidateFrom(s, pos, Counter(pending, None)) == ValidateFrom(s, hi, Counter(pending, None) - 1)
  {
  }

  /** Where the layout item at `pos` ends. */
  function AfterLayout(s: seq<byte>, pos: nat): (next: nat)
    requires pos < |s|
    ensures pos < next <= |s|
  {
    if IsSpace(s[pos]) then pos + 1 else NextLine(s, pos + 1)
  }

  lemma {:induction false} LayoutIsMirrored(s: seq<byte>, pos: nat, pending: Pending, result: Option<Expr>, n: nat)
    requires pos < |s| && (IsSpace(s[pos]) || s[pos] == HASH)
    ensures ParseFrom(s, pos, pending, result) == ParseFrom(s, AfterLayout(s, pos), pending, result)
    ensures ValidateFrom(s, pos, n) == ValidateFrom(s, AfterLayout(s, pos), n)
  {
  }

  lemma {:induction false} BacktickIsMirrored(s: seq<byte>, pos: nat, pending: Pending)
    requires pos < |s| && s[pos] == BACKTICK
    ensures ParseFrom(s, pos, pending, None) == ParseFrom(s, pos + 1, pending + [None], None)
    ensures ValidateFrom(s, pos, Counter(pending, None)) == ValidateFrom(s, pos + 1, Counter(pending + [None], None))
  {
    assert (pending + [None])[..|pending|] == pending;
  }

  /** From every pair of corresponding loop states, parser and check give the same verdict at the same byte. */
  lemma {:induction false} CheckMirrorsParser(s: seq<byte>, pos: nat, pending: Pending, result: Option<Expr>)
    requires pos <= |s|
    requires result.Some? ==> pending == []
    ensures ValidateFrom(s, pos, Counter(pending, result)) ==
            match ParseFrom(s, pos, pending, result) { case Ok(_) => None case Err(e) => Some(e) }
    decreases |s| - pos
  {
    if pos == |s| || (!IsSpace(s[pos]) && s[pos] != HASH && result.Some?) {
    } else if IsSpace(s[pos]) || s[pos] == HASH {
      LayoutIsMirrored(s, pos, pending, result, Counter(pending, result));
      CheckMirrorsParser(s, AfterLayout(s, pos), pending, result);
    } else if s[pos] == BACKTICK {
      BacktickIsMirrored(s, pos, pending);
      CheckMirrorsParser(s, pos + 1, pending + [None], None);
    } else {
      TokenIsMirrored(s, pos, pending);
      var token := ReadToken(s, pos);
      if token.Some? {
        var node := Val(token.value.0);
        var (p, r) := Plug(pending, node);
        PlugDecrementsCounter(pending, node);
        CheckMirrorsParser(s, token.value.1, p, r);
      }
    }
  }

  lemma {:induction false} CheckAgreesWithParser(s: seq<byte>)
    ensures ValidateFrom(s, 0, 1) == match ParseFrom(s, 0, [], None) { case Ok(_) => None case Err(e) => Some(e) }
  {
    CheckMirrorsParser(s, 0, [], None);
  }

  // The grammar.  `Spells(s, lo, hi, e)` says that s[lo..hi] is a spelling of e,
  // with any layout before each of its tokens.

  /** A comment that a newline ends. */
  predicate ClosedComment(s: seq<byte>, lo: nat)
    requires lo < |s|
  {
    s[lo] == HASH && NextLine(s, lo + 1) > lo + 1 && s[NextLine(s, lo + 1) - 1] == NEWLINE
  }

  ghost predicate Layout(s: seq<byte>, lo: nat, hi: nat)
    requires lo <= hi <= |s|
    decreases hi - lo
  {
    || lo == hi
    || ((IsSpace(s[lo]) || ClosedComment(s, lo)) && AfterLayout(s, lo) <= hi && Layout(s, AfterLayout(s, lo), hi))
  }

  /** Layout up to the end of the source, where a comment need not be closed. */
  ghost predicate TrailingLayout(s: seq<byte>, lo: nat)
    requires lo <= |s|
  {
    || Layout(s, lo, |s|)
    || exists c :: lo <= c < |s| && s[c] == HASH && OneLine(s, c + 1, |s|) && Layout(s, lo, c)
  }

  predicate Token(s: seq<byte>, lo: nat, hi: nat, v: Value)
    requires lo <= hi <= |s|
  {
    || (hi == lo + 1 && Builtin(s[lo]) == Some(v))
    || (hi == lo + 2 && s[lo] == DOT && v == Dot(s[lo + 1]))
    || (hi == lo + 2 && s[lo] == QUESTION && v == Cmp(s[lo + 1]))
  }

  ghost predicate Spells(s: seq<byte>, lo: nat, hi: nat, e: Expr)
    requires lo <= hi <= |s|
    decreases e
  {
    match e
    case Val(v) =>
      exists mid {:trigger Token(s, mid, hi, v)} :: lo <= mid <= hi && Layout(s, lo, mid) && Token(s, mid, hi, v)
    case App(f, x) =>
      exists mid, cut {:trigger Layout(s, lo, mid), Spells(s, cut, hi, x)} ::
                         lo <= mid < cut <= hi && Layout(s, lo, mid) && s[mid] == BACKTICK &&
                         Spells(s, mid + 1, cut, f) && Spells(s, cut, hi, x)
  }

  ghost predicate SpellsProgram(s: seq<byte>, e: Expr) {
    exists hi :: 0 <= hi <= |s| && Spells(s, 0, hi, e) && TrailingLayout(s, hi)
  }

  function SkipLayout(s: seq<byte>, pos: nat): (next: nat)
    requires pos <= |s|
    ensures pos <= next <= |s|
    ensures next < |s| ==> !IsSpace(s[next]) && s[next] != HASH
    decreases |s| - pos
  {
    if pos < |s| && IsSpace(s[pos]) then SkipLayout(s, pos + 1)
    else if pos < |s| && s[pos] == HASH then SkipLayout(s, NextLine(s, pos + 1))
    else pos
  }

  /** The token at `pos`, with the position after it. */
  function ReadToken(s: seq<byte>, pos: nat): (r: Option<(Value, nat)>)
    requires pos < |s|
    ensures r.Some? ==> pos < r.value.1 <= |s|
  {
    if s[pos] == DOT || s[pos] == QUESTION then
      if pos + 1 == |s| then None
      else Some((if s[pos] == DOT then Dot(s[pos + 1]) else Cmp(s[pos + 1]), pos + 2))
    else if Builtin(s[pos]).Some? then Some((Builtin(s[pos]).value, pos + 1))
    else None
  }

  /** Recursive descent along the grammar: the expression starting at `pos` and the position after it. */
  function ReadExpr(s: seq<byte>, pos: nat): (r: Option<(Expr, nat)>)
    requires pos <= |s|
    ensures r.Some? ==> pos < r.value.1 <= |s|
    decreases |s| - pos
  {
    var mid := SkipLayout(s, pos);
    if mid == |s| then None
    else if s[mid] == BACKTICK then
      var f := ReadExpr(s, mid + 1);
      if f.None? then None else
      var x := ReadExpr(s, f.value.1);
      if x.None? then None else Some((App(f.value.0, x.value.0), x.value.1))
    else
      var v := ReadToken(s, mid);
      if v.None? then None else Some((Val(v.value.0), v.value.1))
  }

  lemma {:induction false} SkippedIsLayout(s: seq<byte>, pos: nat)
    requires pos <= |s|
    ensures SkipLayout(s, pos) < |s| ==> Layout(s, pos, SkipLayout(s, pos))
    ensures SkipLayout(s, pos) == |s| ==> TrailingLayout(s, pos)
    decreases |s| - pos
  {
    if pos < |s| && IsSpace(s[pos]) {
      SkippedIsLayout(s, pos + 1);
    } else if pos < |s| && s[pos] == HASH {
      var next := NextLine(s, pos + 1);
      NextLineIsTheNext(s, pos + 1);
      SkippedIsLayout(s, next);
      if next == |s| && OneLine(s, pos + 1, next) {
        assert Layout(s, pos, pos);
      } else {
        assert s[next - 1] == NEWLINE && OneLine(s, pos + 1, next - 1);
      }
    }
  }

  lemma {:induction false} SkipOne(s: seq<byte>, pos: nat)
    requires pos < |s| && (IsSpace(s[pos]) || s[pos] == HASH)
    ensures SkipLayout(s, pos) == SkipLayout(s, AfterLayout(s, pos))
  {
  }

  lemma {:induction false} LayoutIsSkipped(s: seq<byte>, lo: nat, hi: nat)
    requires lo <= hi <= |s| && Layout(s, lo, hi)
    ensures SkipLayout(s, lo) == SkipLayout(s, hi)
    decreases hi - lo
  {
    if lo < hi {
      SkipOne(s, lo);
      LayoutIsSkipped(s, AfterLayout(s, lo), hi);
    }
  }

  lemma {:induction false} TrailingIffSkippedToEnd(s: seq<byte>, lo: nat)
    requires lo <= |s|
    ensures TrailingLayout(s, lo) <==> SkipLayout(s, lo) == |s|
  {
    SkippedIsLayout(s, lo);
    if TrailingLayout(s, lo) {
      if Layout(s, lo, |s|) {
        LayoutIsSkipped(s, lo, |s|);
      } else {
        var c :| lo <= c < |s| && s[c] == HASH && OneLine(s, c + 1, |s|) && Layout(s, lo, c);
        LayoutIsSkipped(s, lo, c);
        var next := NextLine(s, c + 1);
        NextLineIsTheNext(s, c + 1);
        assert next == |s|;
      }
    }
  }

  lemma {:induction false} SpellsApplication(s: seq<byte>, lo: nat, mid: nat, cut: nat, hi: nat, f: Expr, x: Expr)
    requires lo <= mid < cut <= hi <= |s| && Layout(s, lo, mid) && s[mid] == BACKTICK
    requires Spells(s, mid + 1, cut, f) && Spells(s, cut, hi, x)
    ensures Spells(s, lo, hi, App(f, x))
  {
  }

  lemma {:induction false} SpellsValue(s: seq<byte>, lo: nat, mid: nat, hi: nat, v: Value)
    requires lo <= mid <= hi <= |s| && Layout(s, lo, mid) && Token(s, mid, hi, v)
    ensures Spells(s, lo, hi, Val(v))
  {
  }

  /** What reading an application found. */
  lemma {:induction false} ApplicationWasRead(s: seq<byte>, pos: nat, f: Expr, x: Expr, hi: nat)
    returns (mid: nat, cut: nat)
    requires pos <= |s| && ReadExpr(s, pos) == Some((App(f, x), hi))
    ensures mid == SkipLayout(s, pos) < |s| && s[mid] == BACKTICK && mid + 1 < cut < hi <= |s|
    ensures ReadExpr(s, mid + 1) == Some((f, cut)) && ReadExpr(s, cut) == Some((x, hi))
  {
    mid := SkipLayout(s, pos);
    cut := ReadExpr(s, mid + 1).value.1;
  }

  lemma {:induction false} ValueWasRead(s: seq<byte>, pos: nat, v: Value, hi: nat) returns (mid: nat)
    requires pos <= |s| && ReadExpr(s, pos) == Some((Val(v), hi))
    ensures mid == SkipLayout(s, pos) < |s| && s[mid] != BACKTICK && ReadToken(s, mid) == Some((v, hi))
  {
    mid := SkipLayout(s, pos);
  }

  lemma {:induction false} ReadAfterLayout(s: seq<byte>, pos: nat)
    requires pos <= |s| && SkipLayout(s, pos) < |s|
    ensures Layout(s, pos, SkipLayout(s, pos))
  {
    SkippedIsLayout(s, pos);
  }

  lemma {:induction false} ReadIsSpelling(s: seq<byte>, pos: nat, e: Expr, hi: nat)
    requires pos <= |s| && ReadExpr(s, pos) == Some((e, hi))
    ensures Spells(s, pos, hi, e)
    decreases e
  {
    match e
    case Val(v) => ReadValueIsSpelling(s, pos, v, hi);
    case App(f, x) =>
      var mid, cut := ApplicationWasRead(s, pos, f, x, hi);
      ReadIsSpelling(s, mid + 1, f, cut);
      ReadIsSpelling(s, cut, x, hi);
      ReadAfterLayout(s, pos);
      SpellsApplication(s, pos, mid, cut, hi, f, x);
  }

  lemma {:induction false} ReadValueIsSpelling(s: seq<byte>, pos: nat, v: Value, hi: nat)
    requires pos <= |s| && ReadExpr(s, pos) == Some((Val(v), hi))
    ensures Spells(s, pos, hi, Val(v))
  {
    var mid := ValueWasRead(s, pos, v, hi);
    TokenWasRead(s, mid);
    ReadAfterLayout(s, pos);
    SpellsValue(s, pos, mid, hi, v);
  }

  lemma {:induction false} TokenWasRead(s: seq<byte>, pos: nat)
    requires pos < |s| && ReadToken(s, pos).Some?
    ensures var (v, hi) := ReadToken(s, pos).value; Token(s, pos, hi, v) && Plain(Val(v))
  {
  }

  lemma {:induction false} TokenEndsLayout(s: seq<byte>, lo: nat, mid: nat)
    requires lo <= mid < |s| && Layout(s, lo, mid) && !IsSpace(s[mid]) && s[mid] != HASH
    ensures SkipLayout(s, lo) == mid
  {
    LayoutIsSkipped(s, lo, mid);
  }

  lemma {:induction false} TokenIsRead(s: seq<byte>, lo: nat, hi: nat, v: Value)
    requires lo <= hi <= |s| && Token(s, lo, hi, v)
    ensures lo < |s| && !IsSpace(s[lo]) && s[lo] != HASH && s[lo] != BACKTICK && ReadToken(s, lo) == Some((v, hi))
  {
  }

  lemma {:induction false} ReadApplication(s: seq<byte>, lo: nat, mid: nat, cut: nat, hi: nat, f: Expr, x: Expr)
    requires lo <= mid < cut <= hi <= |s| && SkipLayout(s, lo) == mid && s[mid] == BACKTICK
    requires ReadExpr(s, mid + 1) == Some((f, cut)) && ReadExpr(s, cut) == Some((x, hi))
    ensures ReadExpr(s, lo) == Some((App(f, x), hi))
  {
  }

  lemma {:induction false} SpelledValue(s: seq<byte>, lo: nat, hi: nat, v: Value)
    requires lo <= hi <= |s| && Spells(s, lo, hi, Val(v))
    ensures ReadExpr(s, lo) == Some((Val(v), hi))
  {
    var mid :| lo <= mid <= hi && Layout(s, lo, mid) && Token(s, mid, hi, v);
    TokenIsRead(s, mid, hi, v);
    TokenEndsLayout(s, lo, mid);
  }

  lemma {:induction false} SpelledApplication(s: seq<byte>, lo: nat, hi: nat, f: Expr, x: Expr)
    returns (mid: nat, cut: nat)
    requires lo <= hi <= |s| && Spells(s, lo, hi, App(f, x))
    ensures lo <= mid < cut <= hi && SkipLayout(s, lo) == mid && s[mid] == BACKTICK
    ensures Spells(s, mid + 1, cut, f) && Spells(s, cut, hi, x)
  {
    mid, cut :| lo <= mid < cut <= hi && Layout(s, lo, mid) && s[mid] == BACKTICK &&
                Spells(s, mid + 1, cut, f) && Spells(s, cut, hi, x);
    TokenEndsLayout(s, lo, mid);
  }

  lemma {:induction false} SpellingIsRead(s: seq<byte>, lo: nat, hi: nat, e: Expr)
    requires lo <= hi <= |s| && Spells(s, lo, hi, e)
    ensures ReadExpr(s, lo) == Some((e, hi))
    decreases e
  {
    match e
    case Val(v) => SpelledValue(s, lo, hi, v);
    case App(f, x) =>
      var mid, cut := SpelledApplication(s, lo, hi, f, x);
      SpellingIsRead(s, mid + 1, cut, f);
      SpellingIsRead(s, cut, hi, x);
      ReadApplication(s, lo, mid, cut, hi, f, x);
  }

  lemma {:induction false} ParserSkipsLayout(s: seq<byte>, pos: nat, pending: Pending, result: Option<Expr>)
    requires pos <= |s|
    ensures ParseFrom(s, pos, pending, result) == ParseFrom(s, SkipLayout(s, pos), pending, result)
    decreases |s| - pos
  {
    if pos < |s| && IsSpace(s[pos]) {
      ParserSkipsLayout(s, pos + 1, pending, result);
    } else if pos < |s| && s[pos] == HASH {
      ParserSkipsLayout(s, NextLine(s, pos + 1), pending, result);
    }
  }

  ghost predicate Descends(s: seq<byte>, pos: nat, pending: Pending)
    requires pos <= |s|
  {
    var r := ReadExpr(s, pos);
    if r.None? then ParseFrom(s, pos, pending, None).Err?
    else ParseFrom(s, pos, pending, None) == Resumed(s, pending, r.value.0, r.value.1)
  }

  lemma {:induction false} LeafDescends(s: seq<byte>, pos: nat, pending: Pending)
    requires pos <= |s| && (SkipLayout(s, pos) < |s| ==> s[SkipLayout(s, pos)] != BACKTICK)
    ensures Descends(s, pos, pending)
  {
    var mid := SkipLayout(s, pos);
    ParserSkipsLayout(s, pos, pending, None);
    if mid < |s| { TokenIsMirrored(s, mid, pending); }
  }

  /** The pending stack implements recursive descent: reading an expression plugs it into the stack. */
  lemma {:induction false} ParserDescends(s: seq<byte>, pos: nat, pending: Pending)
    requires pos <= |s|
    ensures Descends(s, pos, pending)
    decreases |s| - pos
  {
    var mid := SkipLayout(s, pos);
    if mid < |s| && s[mid] == BACKTICK {
      ParserSkipsLayout(s, pos, pending, None);
      BacktickIsMirrored(s, mid, pending);
      ParserDescends(s, mid + 1, pending + [None]);
      var f := ReadExpr(s, mid + 1);
      if f.Some? {
        OperatorIsHeld(pending, f.value.0);
        ParserDescends(s, f.value.1, pending + [Some(f.value.0)]);
        var x := ReadExpr(s, f.value.1);
        if x.Some? {
          OperandIsApplied(pending, f.value.0, x.value.0);
        }
      }
    } else {
      LeafDescends(s, pos, pending);
    }
  }

  /** The parser behind an expression that has been plugged into the stack. */
  function Resumed(s: seq<byte>, pending: Pending, e: Expr, hi: nat): Result<Expr, SyntaxError>
    requires hi <= |s|
  {
    ParseFrom(s, hi, Plug(pending, e).0, Plug(pending, e).1)
  }

  lemma {:induction false} OperatorIsHeld(pending: Pending, f: Expr)
    ensures Plug(pending + [None], f) == (pending + [Some(f)], None)
  {
    assert (pending + [None])[..|pending|] == pending;
  }

  lemma {:induction false} OperandIsApplied(pending: Pending, f: Expr, x: Expr)
    ensures Plug(pending + [Some(f)], x) == Plug(pending, App(f, x))
  {
    assert (pending + [Some(f)])[..|pending|] == pending;
  }

  /**
   Main result: the parser returns e exactly for the spellings of e, with layout
   inserted freely between tokens and after the last one.
   */
  lemma {:induction false} ParsesExactlyTheSpellings(s: seq<byte>, e: Expr)
    ensures ParseFrom(s, 0, [], None) == Ok(e) <==> SpellsProgram(s, e)
  {
    ParserDescends(s, 0, []);
    if ReadExpr(s, 0).Some? {
      var (e', hi) := ReadExpr(s, 0).value;
      ReadIsSpelling(s, 0, e', hi);
      ParserSkipsLayout(s, hi, [], Some(e'));
      TrailingIffSkippedToEnd(s, hi);
    }
    if SpellsProgram(s, e) {
      var hi :| 0 <= hi <= |s| && Spells(s, 0, hi, e) && TrailingLayout(s, hi);
      SpellingIsRead(s, 0, hi, e);
    }
  }

  lemma {:induction false} SpellingIsUnambiguous(s: seq<byte>, e: Expr, e': Expr)
    requires SpellsProgram(s, e) && SpellsProgram(s, e')
    ensures e == e'
  {
    ParsesExactlyTheSpellings(s, e);
    ParsesExactlyTheSpellings(s, e');
  }

  // Canonical printing.

  function PrintValue(v: Value): seq<byte> {
    match v
    case K => [107]
    case S => [115]
    case I => [105]
    case V => [118]
    case D => [100]
    case C => [99]
    case E => [101]
    case Read => [64]
    case Pipe => [124]
    case Dot(b) => [DOT, b]
    case Cmp(b) => [QUESTION, b]
    case _ => []
  }

  /** Only source expressions have a spelling: no captured continuation, promise or partial application. */
  predicate Plain(e: Expr) {
    match e
    case App(f, x) => Plain(f) && Plain(x)
    case Val(v) => !(v.K1? || v.S1? || v.S2? || v.D1? || v.Cont?)
  }

  function Print(e: Expr): seq<byte> {
    match e
    case Val(v) => PrintValue(v)
    case App(f, x) => [BACKTICK] + Print(f) + Print(x)
  }

  predicate Occurs(s: seq<byte>, lo: nat, p: seq<byte>) {
    lo + |p| <= |s| && forall i :: 0 <= i < |p| ==> s[lo + i] == p[i]
  }

  lemma {:induction false} PartOccurs(s: seq<byte>, lo: nat, a: seq<byte>, b: seq<byte>)
    requires Occurs(s, lo, a + b)
    ensures Occurs(s, lo, a) && Occurs(s, lo + |a|, b)
  {
    assert forall i :: 0 <= i < |a| ==> (a + b)[i] == a[i];
    forall i | 0 <= i < |b| ensures s[lo + |a| + i] == b[i] {
      assert s[lo + (|a| + i)] == (a + b)[|a| + i];
    }
  }

  lemma {:induction false} PrintSpells(s: seq<byte>, lo: nat, e: Expr)
    requires Plain(e) && Occurs(s, lo, Print(e))
    ensures Spells(s, lo, lo + |Print(e)|, e)
    decreases e
  {
    match e
    case Val(v) =>
      TokenOccurs(s, lo, v);
      SpellsValue(s, lo, lo, lo + |PrintValue(v)|, v);
    case App(f, x) =>
      var cut := lo + 1 + |Print(f)|;
      PartOccurs(s, lo, [BACKTICK] + Print(f), Print(x));
      PartOccurs(s, lo, [BACKTICK], Print(f));
      assert s[lo + 0] == [BACKTICK][0];
      PrintSpells(s, lo + 1, f);
      PrintSpells(s, cut, x);
      SpellsApplication(s, lo, lo, cut, lo + |Print(e)|, f, x);
  }

  lemma {:induction false} TokenOccurs(s: seq<byte>, lo: nat, v: Value)
    requires Plain(Val(v)) && Occurs(s, lo, PrintValue(v))
    ensures Layout(s, lo, lo) && Token(s, lo, lo + |PrintValue(v)|, v)
  {
    assert s[lo + 0] == PrintValue(v)[0];
    if v.Dot? || v.Cmp? { assert s[lo + 1] == PrintValue(v)[1]; }
  }

  lemma {:induction false} RoundTrip(e: Expr)
    requires Plain(e)
    ensures ParseFrom(Print(e), 0, [], None) == Ok(e)
  {
    PrintSpells(Print(e), 0, e);
    assert TrailingLayout(Print(e), |Print(e)|);
    ParsesExactlyTheSpellings(Print(e), e);
  }

  /** What the parser returns is plain, so the evaluator's theorems apply to every accepted source. */
  lemma {:induction false} ReadIsPlain(s: seq<byte>, pos: nat, e: Expr, hi: nat)
    requires pos <= |s| && ReadExpr(s, pos) == Some((e, hi))
    ensures Plain(e)
    decreases e
  {
    match e
    case Val(v) =>
      var mid := ValueWasRead(s, pos, v, hi);
      TokenWasRead(s, mid);
    case App(f, x) =>
      var mid, cut := ApplicationWasRead(s, pos, f, x, hi);
      ReadIsPlain(s, mid + 1, f, cut);
      ReadIsPlain(s, cut, x, hi);
  }

  lemma {:induction false} ParsedIsPlain(s: seq<byte>)
    ensures ParseFrom(s, 0, [], None).Ok? ==> Plain(ParseFrom(s, 0, [], None).value)
  {
    if ParseFrom(s, 0, [], None).Ok? {
      var e := ParseFrom(s, 0, [], None).value;
      ParsesExactlyTheSpellings(s, e);
      var hi :| 0 <= hi <= |s| && Spells(s, 0, hi, e) && TrailingLayout(s, hi);
      SpellingIsRead(s, 0, hi, e);
      ReadIsPlain(s, 0, e, hi);
    }
  }

  // What the single characters and the errors are.

  /** The letters stand for combinators in either case, r prints a newline, and no other character stands alone. */
  lemma {:induction false} BuiltinsExactly(b: byte)
    ensures Builtin('k' as int) == Builtin('K' as int) == Some(K)
    ensures Builtin('s' as int) == Builtin('S' as int) == Some(S)
    ensures Builtin('i' as int) == Builtin('I' as int) == Some(I)
    ensures Builtin('v' as int) == Builtin('V' as int) == Some(V)
    ensures Builtin('d' as int) == Builtin('D' as int) == Some(D)
    ensures Builtin('c' as int) == Builtin('C' as int) == Some(C)
    ensures Builtin('e' as int) == Builtin('E' as int) == Some(E)
    ensures Builtin('r' as int) == Builtin('R' as int) == Some(Dot('\n' as int))
    ensures Builtin('@' as int) == Some(Read) && Builtin('|' as int) == Some(Pipe)
    ensures Builtin(b).Some? <==> b as char in "kKsSiIvVdDcCeErR@|"
    ensures IsSpace(b) <==> b as char in " \t\n\r" || b == 11 || b == 12
  {
    var letters := "kKsSiIvVdDcCeErR@|";
    assert letters[0] == 'k' && letters[1] == 'K' && letters[2] == 's' && letters[3] == 'S' && letters[4] == 'i';
    assert letters[5] == 'I' && letters[6] == 'v' && letters[7] == 'V' && letters[8] == 'd' && letters[9] == 'D';
    assert letters[10] == 'c' && letters[11] == 'C' && letters[12] == 'e' && letters[13] == 'E' && letters[14] == 'r';
    assert letters[15] == 'R' && letters[16] == '@' && letters[17] == '|';
    var spaces := " \t\n\r";
    assert spaces[0] == ' ' && spaces[1] == '\t' && spaces[2] == '\n' && spaces[3] == '\r';
  }

  lemma {:induction false} NextLineBefore(s: seq<byte>, pos: nat, at: nat)
    requires pos <= at <= |s| && NextLine(s, pos) <= at
    ensures NextLine(s[..at], pos) == NextLine(s, pos)
    decreases |s| - pos
  {
    if pos < at && s[pos] != NEWLINE { NextLineBefore(s, pos + 1, at); }
  }

  /** A byte at which nothing can start. */
  predicate Unknown(b: byte) {
    !IsSpace(b) && b !in {HASH, BACKTICK, DOT, QUESTION} && Builtin(b).None?
  }

  /** What an error says of a source: what precedes it is a whole program, or one that has to go on. */
  ghost predicate Tells(s: seq<byte>, pos: nat, pending: Pending, result: Option<Expr>, error: SyntaxError)
    requires pos <= |s|
  {
    match error
    case TrailingInput(at) =>
      pos <= at < |s| && !IsSpace(s[at]) && s[at] != HASH && ParseFrom(s[..at], pos, pending, result).Ok?
    case EndAfter(at) =>
      pos <= at == |s| - 1 && (s[at] == DOT || s[at] == QUESTION)
      && ParseFrom(s[..at], pos, pending, result) == Err(EndOfSource)
    case UnknownCharacter(at) =>
      pos <= at < |s| && Unknown(s[at]) && ParseFrom(s[..at], pos, pending, result) == Err(EndOfSource)
    case EndOfSource => true
  }

  lemma {:induction false} TellsEarlier(s: seq<byte>, pos: nat, pending: Pending, result: Option<Expr>,
    next: nat, pending': Pending, result': Option<Expr>, error: SyntaxError)
    requires pos < next <= |s| && Tells(s, next, pending', result', error)
    requires forall at :: next <= at < |s| ==>
               ParseFrom(s[..at], pos, pending, result) == ParseFrom(s[..at], next, pending', result')
    ensures Tells(s, pos, pending, result, error)
  {
  }

  /** Cutting the source behind a layout item or a token does not change how it is read. */
  lemma {:induction false} LayoutBefore(s: seq<byte>, pos: nat, pending: Pending, result: Option<Expr>, at: nat)
    requires pos < |s| && (IsSpace(s[pos]) || s[pos] == HASH) && AfterLayout(s, pos) <= at <= |s|
    ensures ParseFrom(s[..at], pos, pending, result) == ParseFrom(s[..at], AfterLayout(s, pos), pending, result)
  {
    if s[pos] == HASH { NextLineBefore(s, pos + 1, at); }
    LayoutIsMirrored(s[..at], pos, pending, result, 0);
  }

  lemma {:induction false} TokenBefore(s: seq<byte>, pos: nat, pending: Pending, at: nat)
    requires pos < |s| && !IsSpace(s[pos]) && s[pos] != HASH && s[pos] != BACKTICK
    requires ReadToken(s, pos).Some? && ReadToken(s, pos).value.1 <= at <= |s|
    ensures var (v, hi) := ReadToken(s, pos).value; var (p, r) := Plug(pending, Val(v));
            ParseFrom(s[..at], pos, pending, None) == ParseFrom(s[..at], hi, p, r)
  {
    assert ReadToken(s[..at], pos) == ReadToken(s, pos);
    TokenIsMirrored(s[..at], pos, pending);
  }

  lemma {:induction false} ErrorTells(s: seq<byte>, pos: nat, pending: Pending, result: Option<Expr>)
    requires pos <= |s| && ParseFrom(s, pos, pending, result).Err?
    ensures Tells(s, pos, pending, result, ParseFrom(s, pos, pending, result).error)
    decreases |s| - pos, 1
  {
    if pos < |s| {
      if IsSpace(s[pos]) || s[pos] == HASH {
        LayoutTells(s, pos, pending, result);
      } else if result.Some? {
        assert ParseFrom(s[..pos], pos, pending, result) == Ok(result.value);
      } else if s[pos] == BACKTICK {
        ErrorTells(s, pos + 1, pending + [None], None);
        TellsEarlier(s, pos, pending, None, pos + 1, pending + [None], None, ParseFrom(s, pos, pending, None).error);
      } else {
        TokenTells(s, pos, pending);
      }
    }
  }

  lemma {:induction false} LayoutTells(s: seq<byte>, pos: nat, pending: Pending, result: Option<Expr>)
    requires pos < |s| && (IsSpace(s[pos]) || s[pos] == HASH) && ParseFrom(s, pos, pending, result).Err?
    ensures Tells(s, pos, pending, result, ParseFrom(s, pos, pending, result).error)
    decreases |s| - pos, 0
  {
    var next := AfterLayout(s, pos);
    LayoutIsMirrored(s, pos, pending, result, 0);
    ErrorTells(s, next, pending, result);
    forall at | next <= at < |s|
      ensures ParseFrom(s[..at], pos, pending, result) == ParseFrom(s[..at], next, pending, result)
    {
      LayoutBefore(s, pos, pending, result, at);
    }
    TellsEarlier(s, pos, pending, result, next, pending, result, ParseFrom(s, pos, pending, result).error);
  }

  lemma {:induction false} TokenTells(s: seq<byte>, pos: nat, pending: Pending)
    requires pos < |s| && !IsSpace(s[pos]) && s[pos] != HASH && s[pos] != BACKTICK
    requires ParseFrom(s, pos, pending, None).Err?
    ensures Tells(s, pos, pending, None, ParseFrom(s, pos, pending, None).error)
    decreases |s| - pos, 0
  {
    TokenIsMirrored(s, pos, pending);
    var token := ReadToken(s, pos);
    if token.Some? {
      var (v, hi) := token.value;
      var (p, r) := Plug(pending, Val(v));
      ErrorTells(s, hi, p, r);
      forall at | hi <= at < |s| ensures ParseFrom(s[..at], pos, pending, None) == ParseFrom(s[..at], hi, p, r) {
        TokenBefore(s, pos, pending, at);
      }
      TellsEarlier(s, pos, pending, None, hi, p, r, ParseFrom(s, pos, pending, None).error);
    } else {
      NoToken(s, pos, pending);
    }
  }

  lemma {:induction false} NoToken(s: seq<byte>, pos: nat, pending: Pending)
    requires pos < |s| && !IsSpace(s[pos]) && s[pos] != HASH && s[pos] != BACKTICK && ReadToken(s, pos).None?
    ensures ParseFrom(s, pos, pending, None).Err?
    ensures Tells(s, pos, pending, None, ParseFrom(s, pos, pending, None).error)
  {
    assert ParseFrom(s[..pos], pos, pending, None) == Err(EndOfSource);
  }

  /**
   The error names the first byte that cannot be: one behind a whole program, one that nothing starts with, or a last
   one that needs another byte; the program before it is whole in the first case and has to go on in the others.
   */
  lemma {:induction false} ErrorIsExact(source: seq<byte>)
    requires ParseFrom(source, 0, [], None).Err?
    ensures match ParseFrom(source, 0, [], None).error
            case TrailingInput(at) =>
              at < |source| && !IsSpace(source[at]) && source[at] != HASH && ParseFrom(source[..at], 0, [], None).Ok?
            case EndAfter(at) =>
              at == |source| - 1 && (source[at] == DOT || source[at] == QUESTION)
              && ParseFrom(source[..at], 0, [], None) == Err(EndOfSource)
            case UnknownCharacter(at) =>
              at < |source| && Unknown(source[at]) && ParseFrom(source[..at], 0, [], None) == Err(EndOfSource)
            case EndOfSource => true
  {
    ErrorTells(source, 0, [], None);
  }
}
