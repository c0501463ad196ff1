/**
 The output comparator of internal/execute/compare.go. It walks both outputs at once and keeps no normalised copy;
 it is proved to decide equality of the normal forms all the same.
 */
module OutputCompare {
  import opened Common

  const NEWLINE: byte := 10
  const BLANKS: set<byte> := {32, 9, 13}                  // space, tab, carriage return
  const BLANKS_AND_NEWLINE: set<byte> := {32, 9, 13, 10}

  /** bytes.TrimRight */
  function TrimRight(s: seq<byte>, cutset: set<byte>): seq<byte> {
    if s != [] && s[|s| - 1] in cutset then TrimRight(s[..|s| - 1], cutset) else s
  }

  /** The line before the first newline and what follows it, as bytes.Cut gives them. */
  function Line(s: seq<byte>): (line: seq<byte>)
    ensures NEWLINE !in line && line <= s
    ensures NEWLINE in s ==> |line| < |s| && s[|line|] == NEWLINE
    ensures NEWLINE !in s ==> line == s
  {
    if s == [] || s[0] == NEWLINE then [] else [s[0]] + Line(s[1..])
  }

  function Rest(s: seq<byte>): seq<byte> {
    if NEWLINE in s then s[|Line(s)| + 1..] else []
  }

  // The normal form: split on newline, trim each line on the right, drop the blank lines at the end.

  function Split(s: seq<byte>): seq<seq<byte>>
    decreases |s|
  {
    if NEWLINE in s then [Line(s)] + Split(Rest(s)) else [s]
  }

  function TrimAll(lines: seq<seq<byte>>): seq<seq<byte>> {
    if lines == [] then [] else [TrimRight(lines[0], BLANKS)] + TrimAll(lines[1..])
  }

  function DropBlankLines(lines: seq<seq<byte>>): seq<seq<byte>> {
    if lines != [] && lines[|lines| - 1] == [] then DropBlankLines(lines[..|lines| - 1]) else lines
  }

  function Normal(s: seq<byte>): seq<seq<byte>> {
    DropBlankLines(TrimAll(Split(s)))
  }

  /** The normal form from left to right: a blank line counts only when something follows it. */
  function Put(line: seq<byte>, lines: seq<seq<byte>>): seq<seq<byte>> {
    if line == [] && lines == [] then [] else [line] + lines
  }

  lemma {:induction false} DropFromTheLeft(line: seq<byte>, lines: seq<seq<byte>>)
    ensures DropBlankLines([line] + lines) == Put(line, DropBlankLines(lines))
    decreases |lines|
  {
    var all := [line] + lines;
    if lines == [] {
      assert all[..0] == [];
    } else if all[|all| - 1] == [] {
      assert all[..|all| - 1] == [line] + lines[..|lines| - 1];
      DropFromTheLeft(line, lines[..|lines| - 1]);
    }
  }

  lemma {:induction false} NormalOfLines(line: seq<byte>, lines: seq<seq<byte>>)
    ensures DropBlankLines(TrimAll([line] + lines)) == Put(TrimRight(line, BLANKS), DropBlankLines(TrimAll(lines)))
  {
    assert ([line] + lines)[1..] == lines;
    DropFromTheLeft(TrimRight(line, BLANKS), TrimAll(lines));
  }

  lemma {:induction false} NormalByLine(s: seq<byte>)
    ensures Normal(s) == Put(TrimRight(Line(s), BLANKS), if NEWLINE in s then Normal(Rest(s)) else [])
  {
    if NEWLINE in s {
      NormalOfLines(Line(s), Split(Rest(s)));
    } else {
      NormalOfLines(s, []);
      assert [s] + [] == [s];
    }
  }

  lemma {:induction false} LineOf(line: seq<byte>, rest: seq<byte>)
    requires NEWLINE !in line
    ensures Line(line + [NEWLINE] + rest) == line && Rest(line + [NEWLINE] + rest) == rest
  {
    var s := line + [NEWLINE] + rest;
    assert s[|line|] == NEWLINE;
    if line != [] {
      LineOf(line[1..], rest);
      assert s[1..] == line[1..] + [NEWLINE] + rest;
    }
  }

  lemma {:induction false} LineAndRest(s: seq<byte>)
    requires NEWLINE in s
    ensures s == Line(s) + [NEWLINE] + Rest(s)
  {
  }

  lemma {:induction false} LastByteOfLine(s: seq<byte>, c: byte)
    requires NEWLINE in s
    ensures NEWLINE in s + [c] && Line(s + [c]) == Line(s) && Rest(s + [c]) == Rest(s) + [c]
  {
    LineAndRest(s);
    Regroup(Line(s) + [NEWLINE], Rest(s), [c]);
    LineOf(Line(s), Rest(s) + [c]);
  }

  lemma {:induction false} LastByteAlone(s: seq<byte>, c: byte)
    requires NEWLINE !in s && c in BLANKS_AND_NEWLINE
    ensures TrimRight(Line(s + [c]), BLANKS) == TrimRight(s, BLANKS)
    ensures NEWLINE in s + [c] ==> Rest(s + [c]) == []
  {
    if c == NEWLINE {
      LineOf(s, []);
      assert s + [c] == s + [NEWLINE] + [];
    } else {
      assert (s + [c])[..|s|] == s;
      assert Line(s + [c]) == s + [c];
    }
  }

  lemma {:induction false} NormalIgnoresLast(s: seq<byte>)
    requires s != [] && s[|s| - 1] in BLANKS_AND_NEWLINE
    ensures Normal(s) == Normal(s[..|s| - 1])
    decreases |s|
  {
    var init, c := s[..|s| - 1], s[|s| - 1];
    assert s == init + [c];
    NormalByLine(s);
    NormalByLine(init);
    if NEWLINE in init {
      LastByteOfLine(init, c);
      assert Rest(s)[..|Rest(s)| - 1] == Rest(init);
      NormalIgnoresLast(Rest(s));
    } else {
      LastByteAlone(init, c);
      EmptyNormal();
    }
  }

  lemma {:induction false} NormalIgnoresTail(s: seq<byte>)
    ensures Normal(TrimRight(s, BLANKS_AND_NEWLINE)) == Normal(s)
    decreases |s|
  {
    if s != [] && s[|s| - 1] in BLANKS_AND_NEWLINE {
      NormalIgnoresTail(s[..|s| - 1]);
      NormalIgnoresLast(s);
    }
  }

  predicate Trimmed(s: seq<byte>) {
    s == [] || s[|s| - 1] !in BLANKS_AND_NEWLINE
  }

  lemma {:induction false} TrimRightTrims(s: seq<byte>)
    ensures Trimmed(TrimRight(s, BLANKS_AND_NEWLINE))
    decreases |s|
  {
    if s != [] && s[|s| - 1] in BLANKS_AND_NEWLINE { TrimRightTrims(s[..|s| - 1]); }
  }

  lemma {:induction false} RestIsTrimmed(s: seq<byte>)
    requires Trimmed(s) && NEWLINE in s
    ensures Rest(s) != [] && Trimmed(Rest(s))
  {
    LineAndRest(s);
    assert s[|s| - 1] == ([NEWLINE] + Rest(s))[|Rest(s)|];
  }

  lemma {:induction false} BlankLineTrims(line: seq<byte>)
    requires TrimRight(line, BLANKS) == [] && line != []
    ensures line[|line| - 1] in BLANKS
  {
  }

  lemma {:induction false} NormalIsNotEmpty(s: seq<byte>)
    requires Trimmed(s) && s != []
    ensures Normal(s) != []
    decreases |s|
  {
    NormalByLine(s);
    if NEWLINE in s {
      RestIsTrimmed(s);
      NormalIsNotEmpty(Rest(s));
    } else if TrimRight(s, BLANKS) == [] {
      BlankLineTrims(s);
    }
  }

  /** What one turn of the loop keeps: something is left, and it is trimmed. */
  lemma {:induction false} TrimmedStep(s: seq<byte>)
    requires Trimmed(s) && s != []
    ensures Trimmed(Rest(s)) && Normal(s) == [TrimRight(Line(s), BLANKS)] + Normal(Rest(s))
    ensures Rest(s) != [] <==> NEWLINE in s
  {
    NormalByLine(s);
    NormalIsNotEmpty(s);
    if NEWLINE in s {
      RestIsTrimmed(s);
      NormalIsNotEmpty(Rest(s));
    } else {
      EmptyNormal();
    }
  }

  lemma {:induction false} EmptyNormal()
    ensures Normal([]) == []
  {
    NormalByLine([]);
  }

  method Compare(expected: seq<byte>, actual: seq<byte>) returns (same: bool)
    ensures same <==> Normal(expected) == Normal(actual)
  {
    var e, a := TrimRight(expected, BLANKS_AND_NEWLINE), TrimRight(actual, BLANKS_AND_NEWLINE);
    NormalIgnoresTail(expected);
    NormalIgnoresTail(actual);
    TrimRightTrims(expected);
    TrimRightTrims(actual);
    EmptyNormal();
    while e != [] && a != []
      invariant Trimmed(e) && Trimmed(a)
      invariant Normal(expected) == Normal(actual) <==> Normal(e) == Normal(a)
      decreases |e|
    {
      TrimmedStep(e);
      TrimmedStep(a);
      var expectedLine, actualLine := TrimRight(Line(e), BLANKS), TrimRight(Line(a), BLANKS);
      SameHead(expectedLine, Normal(Rest(e)), actualLine, Normal(Rest(a)));
      if expectedLine != actualLine { return false; }
      e, a := Rest(e), Rest(a);
    }
    if e != [] { TrimmedStep(e); }
    if a != [] { TrimmedStep(a); }
    return e == [] && a == [];
  }

  lemma {:induction false} SameHead(x: seq<byte>, xs: seq<seq<byte>>, y: seq<byte>, ys: seq<seq<byte>>)
    ensures [x] + xs == [y] + ys <==> x == y && xs == ys
  {
    assert ([x] + xs)[0] == x && ([x] + xs)[1..] == xs && ([y] + ys)[0] == y && ([y] + ys)[1..] == ys;
  }

  // The normal form, written out, is an output of the same class.

  function Unlines(lines: seq<seq<byte>>): seq<byte> {
    if lines == [] then [] else lines[0] + [NEWLINE] + Unlines(lines[1..])
  }

  lemma {:induction false} TrimRightTwice(s: seq<byte>)
    ensures TrimRight(TrimRight(s, BLANKS), BLANKS) == TrimRight(s, BLANKS)
    ensures TrimRight(s, BLANKS) <= s
    decreases |s|
  {
    if s != [] && s[|s| - 1] in BLANKS { TrimRightTwice(s[..|s| - 1]); }
  }

  /** Trimming drops the bytes of the set at the end, all of them and nothing else. */
  lemma {:induction false} TrimRightExactly(s: seq<byte>, cutset: set<byte>)
    ensures var t := TrimRight(s, cutset);
            && t <= s && (forall i :: |t| <= i < |s| ==> s[i] in cutset)
            && (t == [] || t[|t| - 1] !in cutset)
    decreases |s|
  {
    if s != [] && s[|s| - 1] in cutset { TrimRightExactly(s[..|s| - 1], cutset); }
  }

  /** The lines are what stands between the newlines. */
  lemma {:induction false} SplitJoins(s: seq<byte>)
    ensures Split(s) != [] && Unlines(Split(s)) == s + [NEWLINE]
    ensures forall line :: line in Split(s) ==> NEWLINE !in line
    decreases |s|
  {
    if NEWLINE in s {
      var rest := Rest(s);
      SplitJoins(rest);
      LineAndRest(s);
      assert Split(s) == [Line(s)] + Split(rest) && Split(s)[1..] == Split(rest);
      assert Unlines(Split(s)) == Line(s) + [NEWLINE] + (rest + [NEWLINE]);
    } else {
      assert Unlines([s]) == s + [NEWLINE] + Unlines([]);
    }
  }

  lemma {:induction false} TrimAllAt(lines: seq<seq<byte>>)
    ensures |TrimAll(lines)| == |lines|
    ensures forall i :: 0 <= i < |lines| ==> TrimAll(lines)[i] == TrimRight(lines[i], BLANKS)
    decreases |lines|
  {
    if lines != [] {
      TrimAllAt(lines[1..]);
      forall i | 0 <= i < |lines| ensures TrimAll(lines)[i] == TrimRight(lines[i], BLANKS) {
        if i > 0 { assert lines[i] == lines[1..][i - 1]; }
      }
    }
  }

  lemma {:induction false} DropsTheBlank(lines: seq<seq<byte>>)
    ensures var kept := DropBlankLines(lines);
            && kept <= lines && (forall i :: |kept| <= i < |lines| ==> lines[i] == [])
            && (kept == [] || kept[|kept| - 1] != [])
    decreases |lines|
  {
    if lines != [] && lines[|lines| - 1] == [] { DropsTheBlank(lines[..|lines| - 1]); }
  }

  /** The normal form, line by line: the lines of the text without their blanks at the end, up to the last not empty. */
  lemma {:induction false} NormalExactly(s: seq<byte>, i: nat)
    requires i < |Split(s)|
    ensures var t := TrimRight(Split(s)[i], {32, 9, 13}); var n := |Normal(s)|;
            && n <= |Split(s)| && (i < n ==> Normal(s)[i] == t) && (n <= i ==> t == []) && (i == n - 1 ==> t != [])
  {
    TrimAllAt(Split(s));
    DropsTheBlank(TrimAll(Split(s)));
  }

  /**
   Every output compares equal to its normal form written out, so the normal forms are the classes of the comparator.
   */
  lemma {:induction false} NormalFormIsEqual(s: seq<byte>)
    ensures Normal(Unlines(Normal(s))) == Normal(s)
    decreases |s|
  {
    var line := TrimRight(Line(s), BLANKS);
    NormalByLine(s);
    EmptyNormal();
    TrimRightTwice(Line(s));
    assert NEWLINE !in line;
    if Normal(s) != [] {
      var rest := Normal(s)[1..];
      var text := Unlines(rest);
      if NEWLINE in s { NormalFormIsEqual(Rest(s)); }
      assert Normal(text) == rest;
      LineOf(line, text);
      NormalByLine(line + [NEWLINE] + text);
    }
  }
}
