/**
 The sed program of cmd/selftest/sed_fixture.go, command by command, and the
 proof that it adds decimal numbers of any length.
 */
module SedAdder {
  import opened Common
  import opened Decimals
  import opened Sed

  // The regular expressions of the script, in order of appearance.

  const LINE :=
    Star(Spaces, One(Digits, Star(Digits, One(Spaces, Star(Spaces, One(Digits, Star(Digits, Star(Spaces, Eol))))))))
  const READY :=
    One(Digits,
      Star(Digits, One(Lit('#'), One(Digits, Star(Digits, One(Lit('#'), One(Lit('0'), One(Lit('#'), Eol))))))))
  const EXHAUSTED := One(Lit('#'), One(Lit('#'), One(Bits, One(Lit('#'), Done))))
  const EMPTY_FIRST := One(Lit('#'), Done)
  const EMPTY_SECOND := Star(Digits, One(Lit('#'), One(Lit('#'), Done)))
  const TAKE :=
    Star(Digits,
      One(Digits, One(Lit('#'), Star(Digits, One(Digits, One(Lit('#'), One(Bits, One(Lit('#'), Star(Digits, Eol)))))))))
  const SHIFT :=
    One(Bits,
      One(Lit(':'),
      One(Digits, One(Lit(';'), Star(Digits, One(Lit('#'), Star(Digits, One(Lit('#'), Star(Digits, Eol)))))))))
  const RESULT := One(Lit('#'), One(Lit('#'), One(Bits, One(Lit('#'), Done))))
  const ZEROS := Star(Lit('0'), Done)

  function DigitChar(d: nat): (ch: char)
    requires d < 10
    ensures In(Digits, ch) && ch as int == 48 + d
  {
    (48 + d) as char
  }

  function Xs(n: nat): (s: string)
    ensures |s| == n && All(Lit('x'), s)
  {
    seq(n, _ => 'x')
  }

  /** A digit, the x's after it, and the semicolon. */
  function UNARY(d: nat): Re
    requires d < 10
  {
    One(Lit(DigitChar(d)), Star(Lit('x'), One(Lit(';'), Done)))
  }

  function Ones(n: nat, next: Re): Re {
    if n == 0 then next else One(Lit('x'), Ones(n - 1, next))
  }

  /** A carry, exactly `n` x's and the semicolon. */
  function TALLY(n: nat): Re {
    One(Bits, One(Lit(':'), Ones(n, One(Lit(';'), Done))))
  }

  // Values of digit strings.

  function DigitValue(ch: char): nat
    requires In(Digits, ch)
  {
    ch as int - 48
  }

  function Value(s: string): nat
    requires All(Digits, s)
  {
    if s == "" then 0 else Value(s[..|s| - 1]) * 10 + DigitValue(s[|s| - 1])
  }

  function Pow10(n: nat): nat {
    if n == 0 then 1 else 10 * Pow10(n - 1)
  }

  lemma {:induction false} ValuePrepend(ch: char, s: string)
    requires In(Digits, ch) && All(Digits, s)
    ensures All(Digits, [ch] + s) && Value([ch] + s) == DigitValue(ch) * Pow10(|s|) + Value(s)
  {
    var t := [ch] + s;
    assert All(Digits, t);
    if s == "" {
      assert t[..|t| - 1] == "";
      assert Value(t) == Value("") * 10 + DigitValue(ch);
    } else {
      var init := s[..|s| - 1];
      assert t[..|t| - 1] == [ch] + init;
      ValuePrepend(ch, init);
      assert Value(t) == Value([ch] + init) * 10 + DigitValue(s[|s| - 1]);
      TenfoldPow(DigitValue(ch), |init|);
    }
  }

  lemma {:induction false} TenfoldPow(d: nat, n: nat)
    ensures d * Pow10(n) * 10 == d * Pow10(n + 1)
  {
    assert Pow10(n + 1) == 10 * Pow10(n);
  }

  // The shapes the pattern space goes through.

  predicate AreDigits(a: string, b: string, r: string) {
    All(Digits, a) && All(Digits, b) && All(Digits, r)
  }

  /** a#b#c#r: the remaining operands, the carry and the digits of the result. */
  function Packed(a: string, b: string, c: char, r: string): string {
    a + ("#" + (b + ("#" + ([c] + ("#" + r)))))
  }

  lemma {:induction false} MatchExhausted(a: string, b: string, c: char, r: string)
    requires AreDigits(a, b, r) && In(Bits, c)
    ensures Match(EXHAUSTED, Packed(a, b, c, r)).Some? <==> a == "" && b == ""
    ensures a == "" && b == "" ==> var m := Match(RESULT, Packed(a, b, c, r));
      m.Some? && m.value.segs[2] + m.value.post == [c] + r
  {
    var u := [c] + ("#" + r);
    if a == "" {
      assert Packed(a, b, c, r) == "#" + (b + ("#" + u));
      OneTakes(Lit('#'), One(Lit('#'), One(Bits, One(Lit('#'), Done))), '#', b + ("#" + u));
      if b == "" {
        assert b + ("#" + u) == "#" + u;
        OneTakes(Lit('#'), One(Bits, One(Lit('#'), Done)), '#', u);
        OneTakes(Bits, One(Lit('#'), Done), c, "#" + r);
        OneTakes(Lit('#'), Done, '#', r);
      } else {
        assert (b + ("#" + u))[0] == b[0];
      }
    } else {
      assert Packed(a, b, c, r)[0] == a[0];
    }
  }

  lemma {:induction false} MatchEmptyFirst(a: string, b: string, c: char, r: string)
    requires AreDigits(a, b, r) && In(Bits, c)
    ensures var m := Match(EMPTY_FIRST, Packed(a, b, c, r));
            if a == "" then m.Some? && "0" + ("#" + m.value.post) == Packed("0", b, c, r) else m.None?
  {
    var t := b + ("#" + ([c] + ("#" + r)));
    if a == "" {
      assert Packed(a, b, c, r) == "#" + t;
      OneTakes(Lit('#'), Done, '#', t);
    } else {
      assert Packed(a, b, c, r)[0] == a[0];
    }
  }

  lemma {:induction false} MatchEmptySecond(a: string, b: string, c: char, r: string)
    requires AreDigits(a, b, r) && In(Bits, c)
    ensures var m := Match(EMPTY_SECOND, Packed(a, b, c, r));
            if b == "" then m.Some? && m.value.segs[0] + ("#" + ("0" + ("#" + m.value.post))) == Packed(a, "0", c, r)
              else m.None?
  {
    var u := [c] + ("#" + r);
    if b == "" {
      assert b + ("#" + u) == "#" + u;
      OneTakes(Lit('#'), Done, '#', u);
      OneTakes(Lit('#'), One(Lit('#'), Done), '#', "#" + u);
      StarTakes(Digits, One(Lit('#'), One(Lit('#'), Done)), a, "#" + ("#" + u));
    } else {
      NoDoubleHash(a, b + ("#" + u));
    }
  }

  lemma {:induction false} NoDoubleHash(a: string, t: string)
    requires All(Digits, a) && t != "" && t[0] != '#'
    ensures Match(EMPTY_SECOND, a + ("#" + t)).None?
  {
    var s := a + ("#" + t);
    var hashes := One(Lit('#'), One(Lit('#'), Done));
    RunIs(Digits, a, "#" + t);
    NoDoubleHashFrom(a, t, |a|);
  }

  lemma {:induction false} NoDoubleHashFrom(a: string, t: string, k: nat)
    requires All(Digits, a) && t != "" && t[0] != '#' && k <= |a|
    ensures TryStar(One(Lit('#'), One(Lit('#'), Done)), a + ("#" + t), k).None?
  {
    var s := a + ("#" + t);
    if k == |a| {
      assert s[k..] == "#" + t;
      OneTakes(Lit('#'), One(Lit('#'), Done), '#', t);
    } else {
      assert s[k..][0] == a[k];
    }
    if k > 0 {
      NoDoubleHashFrom(a, t, k - 1);
    }
  }

  lemma {:induction false} DigitsToEnd(r: string)
    requires All(Digits, r)
    ensures Match(Star(Digits, Eol), r) == Some(Found([r], ""))
  {
    assert r + "" == r;
    StarTakes(Digits, Eol, r, "");
    assert [r] + [] == [r];
  }

  const CARRY_AND_REST := One(Bits, One(Lit('#'), Star(Digits, Eol)))

  lemma {:induction false} MatchCarryAndRest(c: char, r: string)
    requires In(Bits, c) && All(Digits, r)
    ensures var m := Match(CARRY_AND_REST, [c] + ("#" + r));
      m.Some? && |m.value.segs| == 3 && m.value.segs[0] == [c] && m.value.segs[2] == r
  {
    DigitsToEnd(r);
    OneTakes(Lit('#'), Star(Digits, Eol), '#', r);
    OneTakes(Bits, One(Lit('#'), Star(Digits, Eol)), c, "#" + r);
  }

  /** A starred run of digits, its last digit and the hash after it. */
  lemma {:induction false} LastDigitTaken(next: Re, a: string, d: char, t: string)
    requires All(Digits, a) && In(Digits, d) && Match(next, t).Some?
    ensures var m := Match(Star(Digits, One(Digits, One(Lit('#'), next))), (a + [d]) + ("#" + t));
            && m.Some? && |m.value.segs| == 3 + |Match(next, t).value.segs|
            && m.value.segs[0] == a && m.value.segs[1] == [d] && m.value.segs[3..] == Match(next, t).value.segs
  {
    DigitAndHash(next, d, t);
    StarGivesBack(Digits, One(Digits, One(Lit('#'), next)), a, d, "#" + t);
    Regroup(a, [d], "#" + t);
    ThreeBefore(a, [d], "#", Match(next, t).value);
  }

  lemma {:induction false} ThreeBefore(a: string, b: string, c: string, m: Found)
    ensures var p := Prepend(a, Prepend(b, Prepend(c, Some(m))));
            && p.Some? && |p.value.segs| == 3 + |m.segs|
            && p.value.segs[0] == a && p.value.segs[1] == b && p.value.segs[3..] == m.segs
  {
    assert ([a] + ([b] + ([c] + m.segs)))[3..] == m.segs;
  }

  lemma {:induction false} DigitAndHash(next: Re, d: char, t: string)
    requires In(Digits, d)
    ensures Match(One(Digits, One(Lit('#'), next)), [d] + ("#" + t)) == Prepend([d], Prepend("#", Match(next, t)))
  {
    OneTakes(Lit('#'), next, '#', t);
    OneTakes(Digits, One(Lit('#'), next), d, "#" + t);
  }

  lemma {:induction false} MatchTake(a: string, d: char, b: string, e: char, c: char, r: string)
    requires AreDigits(a, b, r) && In(Digits, d) && In(Digits, e) && In(Bits, c)
    ensures var m := Match(TAKE, Packed(a + [d], b + [e], c, r));
            && m.Some? && |m.value.segs| == 9
            && m.value.segs[0] == a && m.value.segs[1] == [d] && m.value.segs[3] == b && m.value.segs[4] == [e]
            && m.value.segs[6] == [c] && m.value.segs[8] == r
  {
    var u := [c] + ("#" + r);
    MatchCarryAndRest(c, r);
    LastDigitTaken(CARRY_AND_REST, b, e, u);
    var second := Star(Digits, One(Digits, One(Lit('#'), CARRY_AND_REST)));
    var t := (b + [e]) + ("#" + u);
    LastDigitTaken(second, a, d, t);
    var m, m2, m3 :=
      Match(TAKE, (a + [d]) + ("#" + t)).value.segs, Match(second, t).value.segs, Match(CARRY_AND_REST, u).value.segs;
    assert m[3] == m[3..][0] && m[4] == m[3..][1] && m[6] == m[3..][3] && m[8] == m[3..][5];
    assert m2[3] == m2[3..][0] && m2[5] == m2[3..][2];
  }

  lemma {:induction false} UnpackedChars(p: string, n: nat, t: string, j: nat)
    requires j < |p| + n + 1 + |t|
    ensures var s := p + (Xs(n) + (";" + t));
            |s| == |p| + n + 1 + |t| &&
            s[j] == if j < |p| then p[j] else if j < |p| + n then 'x' else if j == |p| + n then ';'
              else t[j - |p| - n - 1]
  {
  }

  predicate NoSemicolon(t: string) {
    forall i :: 0 <= i < |t| ==> t[i] != ';'
  }

  /** What a match of a unary command consists of. */
  lemma {:induction false} UnaryParts(d: nat, s: string)
    requires d < 10 && Match(UNARY(d), s).Some?
    ensures var m := Match(UNARY(d), s).value;
            var k := |m.segs[1]|;
            && |s| > 1 + k && s[0] == DigitChar(d) && s[1 + k] == ';'
            && forall i :: 1 <= i < 1 + k ==> s[i] == 'x'
  {
    MatchFits(UNARY(d), s);
    var m := Match(UNARY(d), s).value;
    var v := s[1..];
    var k := |m.segs[1]|;
    assert Fits(Star(Lit('x'), One(Lit(';'), Done)), v, m.segs[1..], m.post);
    assert m.segs[1..][0] == m.segs[1] && m.segs[1] <= v;
    assert Fits(One(Lit(';'), Done), v[k..], m.segs[1..][1..], m.post);
    forall i | 1 <= i < 1 + k ensures s[i] == 'x' {
      assert s[i] == v[i - 1] == m.segs[1][i - 1];
    }
    assert v[k..][0] == s[1 + k];
  }

  /** A unary command can only match at the last of the digits. */
  lemma {:induction false} UnaryOnlyAtLast(d: nat, p: string, n: nat, t: string, i: nat)
    requires d < 10 && All(Digits, p) && NoSemicolon(t)
    requires i <= |p| + n + 1 + |t|
    requires Match(UNARY(d), (p + (Xs(n) + (";" + t)))[i..]).Some?
    ensures i + 1 == |p| && p[i] == DigitChar(d)
  {
    var s := p + (Xs(n) + (";" + t));
    var v := s[i..];
    UnaryParts(d, v);
    var k := |Match(UNARY(d), v).value.segs[1]|;
    assert s[i] == DigitChar(d) && s[i + 1 + k] == ';';
    UnpackedChars(p, n, t, i);
    UnpackedChars(p, n, t, i + 1 + k);
    assert i + 1 + k == |p| + n;
    if i + 1 < |p| {
      UnpackedChars(p, n, t, |p| - 1);
      assert false;
    }
  }

  lemma {:induction false} MatchUnaryHere(d: nat, n: nat, t: string)
    requires d < 10
    ensures var m := Match(UNARY(d), [DigitChar(d)] + (Xs(n) + (";" + t)));
            m.Some? && |m.value.segs| == 3 && m.value.segs[1] == Xs(n) && m.value.segs[2] == ";" && m.value.post == t
  {
    OneTakes(Lit(';'), Done, ';', t);
    StarTakes(Lit('x'), One(Lit(';'), Done), Xs(n), ";" + t);
    OneTakes(Lit(DigitChar(d)), Star(Lit('x'), One(Lit(';'), Done)), DigitChar(d), Xs(n) + (";" + t));
  }

  /** One unary command: it turns the last digit, if that is d, into d more x's. */
  lemma {:induction false} FindUnary(d: nat, p: string, n: nat, t: string)
    requires d < 10 && All(Digits, p) && NoSemicolon(t)
    ensures var s := p + (Xs(n) + (";" + t));
            var at := Find(UNARY(d), s, 0);
            if p != "" && p[|p| - 1] == DigitChar(d) then
              at == Some(|p| - 1) && var m := Match(UNARY(d), s[|p| - 1..]).value;
                                     |m.segs| == 3 && m.segs[1] == Xs(n) && m.segs[2] == ";" && m.post == t
            else at.None?
  {
    var s := p + (Xs(n) + (";" + t));
    if p != "" && p[|p| - 1] == DigitChar(d) {
      assert s[|p| - 1..] == [DigitChar(d)] + (Xs(n) + (";" + t));
      MatchUnaryHere(d, n, t);
    }
    var at := Find(UNARY(d), s, 0);
    if at.Some? {
      UnaryOnlyAtLast(d, p, n, t, at.value);
    }
  }

  lemma {:induction false} XsAdd(m: nat, n: nat)
    ensures Xs(m) + Xs(n) == Xs(m + n)
  {
  }

  lemma {:induction false} XsOfNext(n: nat, t: string)
    ensures Xs(n + 1) + t == ['x'] + (Xs(n) + t)
  {
  }

  lemma {:induction false} OnesTakeOne(k: nat, next: Re, n: nat, t: string)
    requires k > 0 && n > 0
    ensures Match(Ones(k, next), Xs(n) + t) == Prepend("x", Match(Ones(k - 1, next), Xs(n - 1) + t))
  {
    XsOfNext(n - 1, t);
    OneTakes(Lit('x'), Ones(k - 1, next), 'x', Xs(n - 1) + t);
  }

  lemma {:induction false} TooFewOnes(k: nat, next: Re, n: nat, t: string)
    requires n < k && t != "" && t[0] != 'x'
    ensures Match(Ones(k, next), Xs(n) + t).None?
  {
    if n == 0 {
      assert Xs(0) + t == t;
    } else {
      OnesTakeOne(k, next, n, t);
      TooFewOnes(k - 1, next, n - 1, t);
    }
  }

  lemma {:induction false} EnoughOnes(k: nat, next: Re, n: nat, t: string)
    requires k <= n
    ensures var m, rest := Match(Ones(k, next), Xs(n) + t), Match(next, Xs(n - k) + t);
            (m.Some? <==> rest.Some?) && (m.Some? ==> m.value.post == rest.value.post)
  {
    if k > 0 {
      OnesTakeOne(k, next, n, t);
      EnoughOnes(k - 1, next, n - 1, t);
    }
  }

  lemma {:induction false} MatchOnes(k: nat, next: Re, n: nat, t: string)
    requires t != "" && t[0] != 'x'
    ensures var m := Match(Ones(k, next), Xs(n) + t);
            if n < k then m.None? else
            var rest := Match(next, Xs(n - k) + t);
            (m.Some? <==> rest.Some?) && (m.Some? ==> m.value.post == rest.value.post)
  {
    if n < k { TooFewOnes(k, next, n, t); } else { EnoughOnes(k, next, n, t); }
  }

  lemma {:induction false} MatchTally(k: nat, c: char, n: nat, t: string)
    requires In(Bits, c)
    ensures var m := Match(TALLY(k), [c] + (":" + (Xs(n) + (";" + t))));
            (m.Some? <==> n == k) && (n == k ==> m.value.segs[0] == [c] && m.value.post == t)
  {
    var v := Xs(n) + (";" + t);
    OneTakes(Bits, One(Lit(':'), Ones(k, One(Lit(';'), Done))), c, ":" + v);
    OneTakes(Lit(':'), Ones(k, One(Lit(';'), Done)), ':', v);
    MatchOnes(k, One(Lit(';'), Done), n, ";" + t);
    if n == k {
      assert Xs(0) + (";" + t) == ";" + t;
      OneTakes(Lit(';'), Done, ';', t);
    } else if n > k {
      assert (Xs(n - k) + (";" + t))[0] == 'x';
    }
  }

  /** Once the x's have been replaced by a digit, no tally command applies. */
  lemma {:induction false} NoTallyAfterDigit(k: nat, c: char, e: char, t: string)
    requires In(Bits, c) && In(Digits, e)
    ensures Match(TALLY(k), [c] + (":" + ([e] + t))).None?
  {
    OneTakes(Bits, One(Lit(':'), Ones(k, One(Lit(';'), Done))), c, ":" + ([e] + t));
    OneTakes(Lit(':'), Ones(k, One(Lit(';'), Done)), ':', [e] + t);
    assert ([e] + t)[0] == e;
  }

  const OPERANDS_AND_REST := Star(Digits, One(Lit('#'), Star(Digits, One(Lit('#'), Star(Digits, Eol)))))

  lemma {:induction false} MatchOperandsAndRest(a: string, b: string, r: string)
    requires AreDigits(a, b, r)
    ensures var m := Match(OPERANDS_AND_REST, a + ("#" + (b + ("#" + r))));
            m.Some? && |m.value.segs| == 5 && m.value.segs[0] == a && m.value.segs[2] == b && m.value.segs[4] == r
  {
    var re1 := One(Lit('#'), Star(Digits, Eol));
    var t1 := b + ("#" + r);
    DigitsToEnd(r);
    OneTakes(Lit('#'), Star(Digits, Eol), '#', r);
    StarTakes(Digits, re1, b, "#" + r);
    OneTakes(Lit('#'), Star(Digits, re1), '#', t1);
    StarTakes(Digits, One(Lit('#'), Star(Digits, re1)), a, "#" + t1);
  }

  lemma {:induction false} MatchShift(c: char, e: char, a: string, b: string, r: string)
    requires In(Bits, c) && In(Digits, e) && AreDigits(a, b, r)
    ensures var m := Match(SHIFT, [c] + (":" + ([e] + (";" + (a + ("#" + (b + ("#" + r))))))));
            && m.Some? && |m.value.segs| == 9
            && m.value.segs[0] == [c] && m.value.segs[2] == [e] && m.value.segs[4] == a && m.value.segs[6] == b
               && m.value.segs[8] == r
  {
    var t := a + ("#" + (b + ("#" + r)));
    MatchOperandsAndRest(a, b, r);
    PunctuatedMatch(OPERANDS_AND_REST, c, e, t);
  }

  lemma {:induction false} PunctuatedMatch(next: Re, c: char, e: char, t: string)
    requires In(Bits, c) && In(Digits, e) && Match(next, t).Some?
    ensures Match(One(Bits, One(Lit(':'), One(Digits, One(Lit(';'), next)))), [c] + (":" + ([e] + (";" + t))))
         == Prepend([c], Prepend(":", Prepend([e], Prepend(";", Match(next, t)))))
  {
    OneTakes(Lit(';'), next, ';', t);
    OneTakes(Digits, One(Lit(';'), next), e, ";" + t);
    OneTakes(Lit(':'), One(Digits, One(Lit(';'), next)), ':', [e] + (";" + t));
    OneTakes(Bits, One(Lit(':'), One(Digits, One(Lit(';'), next))), c, ":" + ([e] + (";" + t)));
  }

  // The input line.

  predicate IsOperands(a: string, b: string) {
    a != "" && b != "" && All(Digits, a) && All(Digits, b)
  }

  predicate AreSpaces(u: string, v: string, w: string) {
    All(Spaces, u) && All(Spaces, v) && All(Spaces, w) && v != ""
  }

  /** The line holds two operands with white space around and between them. */
  ghost predicate IsLine(line: string, a: string, b: string) {
    IsOperands(a, b) && exists u, v, w :: AreSpaces(u, v, w) && line == u + (a + (v + (b + w)))
  }

  /** A starred run after its first character. */
  lemma {:induction false} PlusTakes(c: Class, next: Re, a: string, t: string)
    requires a != "" && All(c, a) && (t == "" || !In(c, t[0])) && Match(next, t).Some?
    ensures Match(One(c, Star(c, next)), a + t) == Prepend(a[..1], Prepend(a[1..], Match(next, t)))
  {
    StarTakes(c, next, a[1..], t);
    assert a == [a[0]] + a[1..] && a[..1] == [a[0]];
    Regroup([a[0]], a[1..], t);
    OneTakes(c, Star(c, next), a[0], a[1..] + t);
  }

  const AFTER_GAP := One(Digits, Star(Digits, Star(Spaces, Eol)))

  lemma {:induction false} MatchAfterGap(b: string, w: string)
    requires b != "" && All(Digits, b) && All(Spaces, w)
    ensures var m := Match(AFTER_GAP, b + w); m.Some? && m.value.segs[0] == b[..1] && m.value.segs[1] == b[1..]
  {
    assert w + "" == w;
    StarTakes(Spaces, Eol, w, "");
    PlusTakes(Digits, Star(Spaces, Eol), b, w);
  }

  const GAP := One(Spaces, Star(Spaces, AFTER_GAP))

  lemma {:induction false} MatchGap(v: string, b: string, w: string)
    requires v != "" && All(Spaces, v) && b != "" && All(Digits, b) && All(Spaces, w)
    ensures Match(AFTER_GAP, b + w).Some?
    ensures Match(GAP, v + (b + w)) == Prepend(v[..1], Prepend(v[1..], Match(AFTER_GAP, b + w)))
  {
    MatchAfterGap(b, w);
    PlusTakes(Spaces, AFTER_GAP, v, b + w);
  }

  lemma {:induction false} MatchFirst(u: string, a: string, t: string)
    requires a != "" && All(Digits, a) && All(Spaces, u) && t != "" && In(Spaces, t[0]) && Match(GAP, t).Some?
    ensures Match(LINE, u + (a + t)) == Prepend(u, Prepend(a[..1], Prepend(a[1..], Match(GAP, t))))
  {
    PlusTakes(Digits, GAP, a, t);
    StarTakes(Spaces, One(Digits, Star(Digits, GAP)), u, a + t);
  }

  lemma {:induction false} MatchLine(u: string, a: string, v: string, b: string, w: string)
    requires IsOperands(a, b) && AreSpaces(u, v, w)
    ensures var m := Match(LINE, u + (a + (v + (b + w))));
            m.Some? && |m.value.segs| == 8 && m.value.segs[1] == a[..1] && m.value.segs[2] == a[1..]
              && m.value.segs[5] == b[..1] && m.value.segs[6] == b[1..]
  {
    MatchAfterGap(b, w);
    MatchGap(v, b, w);
    MatchFirst(u, a, v + (b + w));
    var m := Match(AFTER_GAP, b + w).value;
    MatchFits(AFTER_GAP, b + w);
    FiveBefore(u, a[..1], a[1..], v[..1], v[1..], m);
  }

  lemma {:induction false} FiveBefore(u: string, a: string, a': string, v: string, v': string, m: Found)
    ensures var p := Prepend(u, Prepend(a, Prepend(a', Prepend(v, Prepend(v', Some(m))))));
            p.Some? && |p.value.segs| == 5 + |m.segs| && p.value.segs[1] == a && p.value.segs[2] == a'
              && p.value.segs[5..] == m.segs
  {
  }

  /** The first item of a fitting cut, and the cut of what follows it. */
  lemma {:induction false} FitsHead(re: Re, s: string, segs: seq<string>, post: string) returns (t: string)
    requires (re.One? || re.Star?) && Fits(re, s, segs, post)
    ensures segs != [] && s == segs[0] + t && All(re.c, segs[0]) && (re.One? ==> |segs[0]| == 1)
    ensures Fits(re.next, t, segs[1..], post)
  {
    t := s[|segs[0]|..];
  }

  lemma {:induction false} AllAppend(c: Class, a: string, b: string)
    requires All(c, a) && All(c, b)
    ensures All(c, a + b)
  {
  }

  lemma {:induction false} LineHasEightItems()
    ensures Items(LINE) == 8
  {
    assert Items(LINE.next.next.next.next) == 4;
  }

  lemma {:induction false} LineFits(line: string)
    requires Match(LINE, line).Some?
    ensures |Match(LINE, line).value.segs| == 8
    ensures var g := Match(LINE, line).value.segs; IsLine(line, g[1] + g[2], g[5] + g[6])
  {
    LineHasEightItems();
    MatchFits(LINE, line);
    var g, post := Match(LINE, line).value.segs, Match(LINE, line).value.post;
    var t1 := FitsHead(LINE, line, g, post);
    var t2 := FitsHead(LINE.next, t1, g[1..], post);
    var t3 := FitsHead(LINE.next.next, t2, g[1..][1..], post);
    var re3, g3 := LINE.next.next.next, g[3..];
    assert g[1..][1..][1..] == g3;
    var t4 := FitsHead(re3, t3, g3, post);
    var t5 := FitsHead(re3.next, t4, g3[1..], post);
    var t6 := FitsHead(re3.next.next, t5, g3[1..][1..], post);
    var re6, g6 := re3.next.next.next, g[6..];
    assert g3[1..][1..][1..] == g6;
    var t7 := FitsHead(re6, t6, g6, post);
    var t8 := FitsHead(re6.next, t7, g6[1..], post);
    LineRegroups(line, g, t1, t2, t3, t4, t5, t6, t7, t8);
    AllAppend(Digits, g[1], g[2]);
    AllAppend(Spaces, g[3], g[4]);
    AllAppend(Digits, g[5], g[6]);
    assert AreSpaces(g[0], g[3] + g[4], g[7]);
  }

  lemma {:induction false} LineRegroups(line: string, g: seq<string>, t1: string, t2: string, t3: string, t4: string,
    t5: string, t6: string, t7: string, t8: string)
    requires |g| == 8 && line == g[0] + t1 && t1 == g[1] + t2 && t2 == g[2] + t3 && t3 == g[3] + t4 && t4 == g[4] + t5
    requires t5 == g[5] + t6 && t6 == g[6] + t7 && t7 == g[7] + t8 && t8 == ""
    ensures line == g[0] + ((g[1] + g[2]) + ((g[3] + g[4]) + ((g[5] + g[6]) + g[7])))
  {
    assert t7 == g[7];
    Regroup(g[5], g[6], t7);
    Regroup(g[3], g[4], t5);
    Regroup(g[1], g[2], t3);
  }

  lemma {:induction false} MatchReady(a: string, b: string)
    requires IsOperands(a, b)
    ensures Match(READY, Packed(a, b, '0', "")).Some?
  {
    OneTakes(Lit('#'), Eol, '#', "");
    OneTakes(Lit('0'), One(Lit('#'), Eol), '0', "#" + "");
    var re3, t3 := One(Lit('0'), One(Lit('#'), Eol)), "0" + ("#" + "");
    OneTakes(Lit('#'), re3, '#', t3);
    PlusTakes(Digits, One(Lit('#'), re3), b, "#" + t3);
    var re2, t2 := One(Digits, Star(Digits, One(Lit('#'), re3))), b + ("#" + t3);
    OneTakes(Lit('#'), re2, '#', t2);
    PlusTakes(Digits, One(Lit('#'), re2), a, "#" + t2);
  }

  lemma {:induction false} ReadyFits(s: string) returns (a: string, b: string)
    requires Match(READY, s).Some?
    ensures IsOperands(a, b) && s == Packed(a, b, '0', "")
  {
    MatchFits(READY, s);
    var g, post := Match(READY, s).value.segs, Match(READY, s).value.post;
    var t1 := FitsHead(READY, s, g, post);
    var t2 := FitsHead(READY.next, t1, g[1..], post);
    var t3 := FitsHead(READY.next.next, t2, g[1..][1..], post);
    var re3, g3 := READY.next.next.next, g[3..];
    assert g[1..][1..][1..] == g3;
    var t4 := FitsHead(re3, t3, g3, post);
    var t5 := FitsHead(re3.next, t4, g3[1..], post);
    var t6 := FitsHead(re3.next.next, t5, g3[1..][1..], post);
    var re6, g6 := re3.next.next.next, g[6..];
    assert g3[1..][1..][1..] == g6;
    var t7 := FitsHead(re6, t6, g6, post);
    var t8 := FitsHead(re6.next, t7, g6[1..], post);
    a, b := g[0] + g[1], g[3] + g[4];
    assert t8 == "" && g[7] == "#" && g[6] == "0" && g[5] == "#" && g[2] == "#";
    Regroup(g[0], g[1], t2);
    Regroup(g[3], g[4], t5);
    AllAppend(Digits, g[0], g[1]);
    AllAppend(Digits, g[3], g[4]);
  }

  // The result.

  function DecimalText(n: nat): string {
    seq(|Decimal(n)|, i requires 0 <= i < |Decimal(n)| => Decimal(n)[i] as char)
  }

  lemma {:induction false} LeadingZerosIgnored(s: string, k: nat)
    requires All(Digits, s) && k <= |s| && All(Lit('0'), s[..k])
    ensures Value(s[k..]) == Value(s)
  {
    if k == 0 {
      assert s[0..] == s;
    } else {
      var t := s[1..];
      assert s == ['0'] + t && s[0] == s[..k][0];
      ValuePrepend('0', t);
      assert t[..k - 1] == s[..k][1..];
      LeadingZerosIgnored(t, k - 1);
      assert t[k - 1..] == s[k..];
    }
  }

  lemma {:induction false} CanonicalIsDecimal(t: string)
    requires t != "" && All(Digits, t) && t[0] != '0'
    ensures Value(t) > 0 && DecimalText(Value(t)) == t
  {
    var init, d := t[..|t| - 1], DigitValue(t[|t| - 1]);
    if |t| == 1 {
      assert Value(init) == 0;
    } else {
      CanonicalIsDecimal(init);
      assert Decimal(Value(t)) == Decimal(Value(init)) + [48 + d];
      assert t == init + [t[|t| - 1]];
    }
  }

  lemma {:induction false} StrippedIsDecimal(s: string)
    requires All(Digits, s)
    ensures var m := Match(ZEROS, s);
            m.Some? && DecimalText(Value(s)) == if m.value.post == "" then "0" else m.value.post
  {
    var k := Run(Lit('0'), s);
    assert Match(ZEROS, s).value.post == s[k..];
    LeadingZerosIgnored(s, k);
    if k < |s| {
      CanonicalIsDecimal(s[k..]);
    } else {
      assert Decimal(0) == [48];
    }
  }

  // The script.

  function DigitSum(p: string): nat
    requires All(Digits, p)
  {
    if p == "" then 0 else DigitSum(p[..|p| - 1]) + DigitValue(p[|p| - 1])
  }

  /** What the pattern space holds after the digits being summed. */
  function Saved(a: string, b: string, r: string): string {
    a + ("#" + (b + ("#" + r)))
  }

  lemma {:induction false} SavedHasNoSemicolon(a: string, b: string, r: string)
    requires AreDigits(a, b, r)
    ensures NoSemicolon(Saved(a, b, r))
  {
  }

  lemma {:induction false} UnaryRewrites(d: nat, q: string, n: nat, t: string)
    requires d < 10 && q != "" && All(Digits, q) && NoSemicolon(t) && q[|q| - 1] == DigitChar(d)
    ensures var s := q + (Xs(n) + (";" + t));
            var at := Find(UNARY(d), s, 0);
            at.Some? && var m := Match(UNARY(d), s[at.value..]).value;
            |m.segs| == 3
              && s[..at.value] + (Xs(d) + (m.segs[1] + (m.segs[2] + m.post))) == q[..|q| - 1] + (Xs(n + d) + (";" + t))
    ensures DigitSum(q) == DigitSum(q[..|q| - 1]) + d
  {
    FindUnary(d, q, n, t);
    assert (q + (Xs(n) + (";" + t)))[..|q| - 1] == q[..|q| - 1];
    Regroup(Xs(d), Xs(n), ";" + t);
    XsAdd(d, n);
  }

  /** `q` is what is left of the digits `p`, whose other digits have become `n` x's. */
  predicate Unrolling(ps: string, q: string, n: nat, p: string, t: string) {
    All(Digits, p) && All(Digits, q) && ps == q + (Xs(n) + (";" + t)) && n + DigitSum(q) == DigitSum(p)
  }

  /** One unary command: it applies exactly when d is the last digit. */
  method UnaryCommand(d: nat, space: string, ghost q: string, ghost n: nat, ghost p: string, ghost t: string)
    returns (ps: string, flag: bool, ghost q': string, ghost n': nat)
    requires d < 10 && NoSemicolon(t) && Unrolling(space, q, n, p, t)
    ensures Unrolling(ps, q', n', p, t)
    ensures flag <==> q != "" && q[|q| - 1] == DigitChar(d)
    ensures if flag then |q'| < |q| else q' == q
  {
    FindUnary(d, q, n, t);
    ps, flag, q', n' := space, false, q, n;
    var at := Find(UNARY(d), space, 0);
    if at.Some? {
      UnaryRewrites(d, q, n, t);
      var m := Match(UNARY(d), space[at.value..]).value;
      ps := space[..at.value] + (Xs(d) + (m.segs[1] + (m.segs[2] + m.post)));
      flag := true;
      q', n' := q[..|q| - 1], n + d;
    }
  }

  /** The ten unary commands, once each. */
  method UnaryPass(space: string, ghost q0: string, ghost n0: nat, ghost p: string, ghost t: string)
    returns (ps: string, flag: bool, ghost q: string, ghost n: nat)
    requires Unrolling(space, q0, n0, p, t) && NoSemicolon(t)
    ensures Unrolling(ps, q, n, p, t)
    ensures if q0 == "" then !flag && q == "" else flag && |q| < |q0|
  {
    ps, flag, q, n := space, false, q0, n0;
    for d := 0 to 10
      invariant Unrolling(ps, q, n, p, t)
      invariant if flag then |q| < |q0| else q == q0
      invariant !flag && q != "" ==> q[|q| - 1] as int >= 48 + d
    {
      var applied;
      ps, applied, q, n := UnaryCommand(d, ps, q, n, p, t);
      flag := flag || applied;
    }
  }

  /** The `:unary` loop: it turns the digits at the front into as many x's as their sum, and ends. */
  method Unary(space: string, ghost p: string, ghost t: string) returns (ps: string)
    requires All(Digits, p) && NoSemicolon(t) && space == p + (Xs(0) + (";" + t))
    ensures ps == Xs(DigitSum(p)) + (";" + t)
  {
    ps := space;
    var flag := true;
    ghost var q, n := p, 0;
    while flag
      invariant Unrolling(ps, q, n, p, t)
      invariant !flag ==> q == ""
      decreases |q|, flag
    {
      ps, flag, q, n := UnaryPass(ps, q, n, p, t);
    }
    assert "" + (Xs(n) + (";" + t)) == Xs(n) + (";" + t);
  }

  /** The commands from `:unary` to `:carry`: one carry digit, and at most nine x's. */
  method SplitTen(space: string, ghost n: nat, ghost t: string) returns (ps: string)
    requires n < 20 && space == Xs(n) + (";" + t)
    ensures ps == [DigitChar(n / 10)] + (":" + (Xs(n % 10) + (";" + t)))
  {
    TenOnes(n, ";" + t);
    var m := Match(Ones(10, Done), space);
    ps := if m.Some? then "1" + (":" + m.value.post) else "0" + (":" + space);
  }

  lemma {:induction false} TenOnes(n: nat, t: string)
    requires n < 20 && t != "" && t[0] != 'x'
    ensures var m := Match(Ones(10, Done), Xs(n) + t);
            if n < 10 then m.None? && n / 10 == 0 && n % 10 == n && [DigitChar(n / 10)] == "0"
            else m.Some? && m.value.post == Xs(n % 10) + t && n / 10 == 1 && [DigitChar(n / 10)] == "1"
  {
    MatchOnes(10, Done, n, t);
  }

  /** The `:carry` commands: nine x's down to none become a digit. */
  method Tally(space: string, ghost c: char, ghost n: nat, ghost t: string) returns (ps: string)
    requires In(Bits, c) && n < 10 && space == [c] + (":" + (Xs(n) + (";" + t)))
    ensures ps == [c] + (":" + ([DigitChar(n)] + (";" + t)))
  {
    ps := space;
    for k := 10 downto 0
      invariant ps == if k > n then space else [c] + (":" + ([DigitChar(n)] + (";" + t)))
    {
      if k >= n {
        MatchTally(k, c, n, t);
      } else {
        NoTallyAfterDigit(k, c, DigitChar(n), ";" + t);
      }
      var m := Match(TALLY(k), ps);
      if m.Some? {
        ps := m.value.segs[0] + (":" + ([DigitChar(k)] + (";" + m.value.post)));
      }
    }
  }

  /** The sum that the pattern space still stands for. */
  function Total(a: string, b: string, c: char, r: string): nat
    requires AreDigits(a, b, r) && In(Bits, c)
  {
    (Value(a) + Value(b) + DigitValue(c)) * Pow10(|r|) + Value(r)
  }

  lemma {:induction false} DigitSumOfThree(d: char, e: char, c: char)
    requires In(Digits, d) && In(Digits, e) && In(Bits, c)
    ensures var p := ([d] + [e]) + [c];
            All(Digits, p) && DigitSum(p) == DigitValue(d) + DigitValue(e) + DigitValue(c) < 20
  {
    var p := ([d] + [e]) + [c];
    assert p[..2] == [d] + [e] && ([d] + [e])[..1] == [d] && [d][..0] == "";
    assert DigitSum([d]) == DigitSum("") + DigitValue(d);
    assert DigitSum([d] + [e]) == DigitSum([d]) + DigitValue(e);
    assert DigitSum(p) == DigitSum([d] + [e]) + DigitValue(c);
  }

  lemma {:induction false} ValueAppend(a: string, d: char)
    requires All(Digits, a) && In(Digits, d)
    ensures All(Digits, a + [d]) && Value(a + [d]) == Value(a) * 10 + DigitValue(d)
  {
    assert (a + [d])[..|a|] == a;
  }

  /** Moving the digit sum of the last column into carry and result keeps the total. */
  lemma {:induction false} DigitStep(a: string, d: char, b: string, e: char, c: char, r: string)
    requires AreDigits(a, b, r) && In(Digits, d) && In(Digits, e) && In(Bits, c)
    ensures var n := DigitValue(d) + DigitValue(e) + DigitValue(c);
            && n < 20 && AreDigits(a + [d], b + [e], [DigitChar(n % 10)] + r)
            && Total(a + [d], b + [e], c, r) == Total(a, b, DigitChar(n / 10), [DigitChar(n % 10)] + r)
  {
    var n := DigitValue(d) + DigitValue(e) + DigitValue(c);
    ValueAppend(a, d);
    ValueAppend(b, e);
    ValuePrepend(DigitChar(n % 10), r);
    assert Pow10(|r| + 1) == 10 * Pow10(|r|);
    DigitArithmetic(Value(a), Value(b), DigitValue(d), DigitValue(e), DigitValue(c), Pow10(|r|));
  }

  lemma {:induction false} DigitArithmetic(x: nat, y: nat, d: nat, e: nat, c: nat, w: nat)
    ensures var n := d + e + c;
            ((x * 10 + d) + (y * 10 + e) + c) * w == (x + y + n / 10) * (10 * w) + n % 10 * w
  {
    var n := d + e + c;
    assert (x * 10 + d) + (y * 10 + e) + c == (x + y + n / 10) * 10 + n % 10;
  }

  lemma {:induction false} ZeroPads(b: string, c: char, r: string)
    requires AreDigits("", b, r) && In(Bits, c)
    ensures Total("0", b, c, r) == Total("", b, c, r) && Total(b, "0", c, r) == Total(b, "", c, r)
  {
    assert "0"[..0] == "";
    assert Value("0") == Value("0"[..0]) * 10 + 0;
  }

  function Padded(a: string): string {
    if a == "" then "0" else a
  }

  /** The commands that give an exhausted operand a zero, while the other still has digits. */
  method Pad(space: string, ghost a: string, ghost b: string, ghost c: char, ghost r: string) returns (ps: string)
    requires AreDigits(a, b, r) && In(Bits, c) && space == Packed(a, b, c, r)
    ensures AreDigits(Padded(a), Padded(b), r) && ps == Packed(Padded(a), Padded(b), c, r)
    ensures Total(Padded(a), Padded(b), c, r) == Total(a, b, c, r)
  {
    ps := space;
    MatchEmptyFirst(a, b, c, r);
    if a == "" { ZeroPads(b, c, r); }
    var m := Match(EMPTY_FIRST, ps);
    if m.Some? { ps := "0" + ("#" + m.value.post); }
    ghost var a1 := Padded(a);
    MatchEmptySecond(a1, b, c, r);
    if b == "" { ZeroPads(a1, c, r); }
    m := Match(EMPTY_SECOND, ps);
    if m.Some? { ps := m.value.segs[0] + ("#" + ("0" + ("#" + m.value.post))); }
  }

  /** One round of the `:digit` loop after padding, on operands that both have a last digit. */
  method AddDigit(space: string, ghost a: string, ghost d: char, ghost b: string, ghost e: char, ghost c: char,
    ghost r: string)
    returns (ps: string)
    requires AreDigits(a, b, r) && In(Digits, d) && In(Digits, e) && In(Bits, c)
    requires space == Packed(a + [d], b + [e], c, r)
    ensures var n := DigitValue(d) + DigitValue(e) + DigitValue(c);
            n < 20 && ps == Packed(a, b, DigitChar(n / 10), [DigitChar(n % 10)] + r)
  {
    ghost var n := DigitValue(d) + DigitValue(e) + DigitValue(c);
    DigitSumOfThree(d, e, c);
    SavedHasNoSemicolon(a, b, r);
    ps := TakeDigits(space, a, d, b, e, c, r);
    ps := Unary(ps, ([d] + [e]) + [c], Saved(a, b, r));
    ps := SplitTen(ps, n, Saved(a, b, r));
    ps := Tally(ps, DigitChar(n / 10), n % 10, Saved(a, b, r));
    ps := ShiftDigit(ps, DigitChar(n / 10), DigitChar(n % 10), a, b, r);
  }

  /** The command that brings the last digits and the carry to the front. */
  method TakeDigits(space: string, ghost a: string, ghost d: char, ghost b: string, ghost e: char, ghost c: char,
    ghost r: string)
    returns (ps: string)
    requires AreDigits(a, b, r) && In(Digits, d) && In(Digits, e) && In(Bits, c)
    requires space == Packed(a + [d], b + [e], c, r)
    ensures ps == (([d] + [e]) + [c]) + (Xs(0) + (";" + Saved(a, b, r)))
  {
    MatchTake(a, d, b, e, c, r);
    var g := Match(TAKE, space).value.segs;
    ps := ((g[1] + g[4]) + g[6]) + (";" + (g[0] + ("#" + (g[3] + ("#" + g[8])))));
    assert Xs(0) + (";" + Saved(a, b, r)) == ";" + Saved(a, b, r);
  }

  /** The command that repacks the operands with the new carry and the new result digit. */
  method ShiftDigit(space: string, ghost c: char, ghost e: char, ghost a: string, ghost b: string, ghost r: string)
    returns (ps: string)
    requires In(Bits, c) && In(Digits, e) && AreDigits(a, b, r)
    requires space == [c] + (":" + ([e] + (";" + Saved(a, b, r))))
    ensures ps == Packed(a, b, c, [e] + r)
  {
    MatchShift(c, e, a, b, r);
    var g := Match(SHIFT, space).value.segs;
    var operand1, operand2, carry, digit, result := g[4], g[6], g[0], g[2], g[8];
    ps := operand1 + ("#" + (operand2 + ("#" + (carry + ("#" + (digit + result))))));
  }

  /** The pattern space holds operands, carry and result that stand for `total`. */
  predicate StandsFor(ps: string, a: string, b: string, c: char, r: string, total: nat) {
    AreDigits(a, b, r) && In(Bits, c) && ps == Packed(a, b, c, r) && Total(a, b, c, r) == total
  }

  /** A whole round of the `:digit` loop. */
  method Round(space: string, ghost a: string, ghost b: string, ghost c: char, ghost r: string, ghost total: nat)
    returns (ps: string, ghost a': string, ghost b': string, ghost c': char, ghost r': string)
    requires StandsFor(space, a, b, c, r, total) && (a != "" || b != "")
    ensures StandsFor(ps, a', b', c', r', total) && |a'| + |b'| < |a| + |b|
  {
    ps := Pad(space, a, b, c, r);
    ghost var pa, pb := Padded(a), Padded(b);
    ghost var d, e := pa[|pa| - 1], pb[|pb| - 1];
    a', b' := pa[..|pa| - 1], pb[..|pb| - 1];
    assert pa == a' + [d] && pb == b' + [e];
    DigitStep(a', d, b', e, c, r);
    ps := AddDigit(ps, a', d, b', e, c, r);
    ghost var n := DigitValue(d) + DigitValue(e) + DigitValue(c);
    c', r' := DigitChar(n / 10), [DigitChar(n % 10)] + r;
  }

  /** The commands from `:done`: drop the hashes, then the leading zeros. */
  method Finish(space: string, ghost c: char, ghost r: string) returns (out: string)
    requires In(Bits, c) && All(Digits, r) && space == Packed("", "", c, r)
    ensures out == DecimalText(Total("", "", c, r))
  {
    MatchExhausted("", "", c, r);
    ValuePrepend(c, r);
    var m := Match(RESULT, space).value;
    var ps := m.segs[2] + m.post;
    StrippedIsDecimal(ps);
    ps := Match(ZEROS, ps).value.post;
    out := if ps == "" then "0" else ps;
  }

  /** The `:digit` loop and the `:done` commands, on any packed operands. */
  method AddPacked(space: string, ghost a0: string, ghost b0: string) returns (out: string)
    requires IsOperands(a0, b0) && space == Packed(a0, b0, '0', "")
    ensures out == DecimalText(Value(a0) + Value(b0))
  {
    var ps := space;
    ghost var a, b, c, r := a0, b0, '0', "";
    ghost var total := Value(a0) + Value(b0);
    MatchExhausted(a, b, c, r);
    while Match(EXHAUSTED, ps).None?
      invariant StandsFor(ps, a, b, c, r, total)
      invariant Match(EXHAUSTED, ps).Some? <==> a == "" && b == ""
      decreases |a| + |b|
    {
      ps, a, b, c, r := Round(ps, a, b, c, r, total);
      MatchExhausted(a, b, c, r);
    }
    out := Finish(ps, c, r);
  }

  lemma {:induction false} LineIsMatched(line: string, a: string, b: string)
    requires IsLine(line, a, b)
    ensures var m := Match(LINE, line);
            m.Some? && |m.value.segs| == 8 && m.value.segs[1] + m.value.segs[2] == a
              && m.value.segs[5] + m.value.segs[6] == b
  {
    var u, v, w :| AreSpaces(u, v, w) && line == u + (a + (v + (b + w)));
    MatchLine(u, a, v, b, w);
    assert a == a[..1] + a[1..] && b == b[..1] + b[1..];
  }

  lemma {:induction false} MatchedLineHasNoHash(line: string, i: nat)
    requires Match(LINE, line).Some? && i < |line|
    ensures line[i] != '#'
  {
    LineFits(line);
    var g := Match(LINE, line).value.segs;
    var a, b := g[1] + g[2], g[5] + g[6];
    var u, v, w :| AreSpaces(u, v, w) && line == u + (a + (v + (b + w)));
  }

  lemma {:induction false} PackedIsNoLine(a: string, b: string)
    requires IsOperands(a, b)
    ensures Match(LINE, Packed(a, b, '0', "")).None?
  {
    var line := Packed(a, b, '0', "");
    assert line[|a|] == '#';
    if Match(LINE, line).Some? {
      MatchedLineHasNoHash(line, |a|);
    }
  }

  lemma {:induction false} PackedUnique(a: string, b: string, a': string, b': string)
    requires IsOperands(a, b) && IsOperands(a', b') && Packed(a, b, '0', "") == Packed(a', b', '0', "")
    ensures a == a' && b == b'
  {
    var t, t' := b + ("#" + ("0" + ("#" + ""))), b' + ("#" + ("0" + ("#" + "")));
    SplitUnique(Digits, a, "#" + t, a', "#" + t');
    assert ("#" + t)[1..] == t && ("#" + t')[1..] == t';
    SplitUnique(Digits, b, "#" + ("0" + ("#" + "")), b', "#" + ("0" + ("#" + "")));
  }

  /** What the script makes of a line before its loop. */
  ghost predicate Accepts(line: string, a: string, b: string) {
    IsLine(line, a, b) || (IsOperands(a, b) && line == Packed(a, b, '0', ""))
  }

  lemma {:induction false} AcceptedOperandsUnique(line: string, a: string, b: string, a': string, b': string)
    requires Accepts(line, a, b) && Accepts(line, a', b')
    ensures a == a' && b == b'
  {
    if IsLine(line, a, b) {
      LineIsMatched(line, a, b);
      if IsLine(line, a', b') { LineIsMatched(line, a', b'); } else { PackedIsNoLine(a', b'); }
    } else {
      PackedIsNoLine(a, b);
      if IsLine(line, a', b') { LineIsMatched(line, a', b'); } else { PackedUnique(a, b, a', b'); }
    }
  }

  /** The first two commands: pack the operands of a line, and drop a line that is not in packed form. */
  method Prepare(line: string) returns (ps: Option<string>, ghost a: string, ghost b: string)
    ensures ps.Some? ==> Accepts(line, a, b) && ps.value == Packed(a, b, '0', "") && IsOperands(a, b)
    ensures ps.None? ==> forall a, b :: !Accepts(line, a, b)
  {
    var m := Match(LINE, line);
    a, b := "", "";
    if m.Some? {
      var g := m.value.segs;
      LineFits(line);
      a, b := g[1] + g[2], g[5] + g[6];
      ps := Some((g[1] + g[2]) + ("#" + ((g[5] + g[6]) + ("#" + ("0" + ("#" + ""))))));
      MatchReady(a, b);
    } else {
      ps := Some(line);
    }
    if Match(READY, ps.value).None? {
      forall a, b ensures !Accepts(line, a, b) {
        if IsLine(line, a, b) { LineIsMatched(line, a, b); }
        else if Accepts(line, a, b) { MatchReady(a, b); }
      }
      ps := None;
    } else if m.None? {
      a, b := ReadyFits(line);
    }
  }

  /**
   The whole script on one line.  It terminates on every line; it adds two
   operands separated by white space, also accepts the packed form a#b#0#, and
   prints nothing for any other line.
   */
  method SedAB(line: string) returns (out: Option<string>)
    ensures forall a, b :: Accepts(line, a, b) ==> out == Some(DecimalText(Value(a) + Value(b)))
    ensures out.Some? ==> exists a, b :: Accepts(line, a, b)
  {
    var ps, a0, b0 := Prepare(line);
    if ps.None? { return None; }
    var sum := AddPacked(ps.value, a0, b0);
    forall a, b | Accepts(line, a, b) ensures a == a0 && b == b0 {
      AcceptedOperandsUnique(line, a, b, a0, b0);
    }
    out := Some(sum);
  }
}
