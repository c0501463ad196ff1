/**
 The part of sed that cmd/selftest/sed_fixture.go relies on: basic regular
 expressions made of single characters and starred character classes, matched
 leftmost and greedily with backtracking.
 */
module Sed {
  import opened Common

  datatype Class = Lit(ch: char) | Digits | Bits | Spaces

  predicate In(c: Class, ch: char) {
    match c
    case Lit(x) => ch == x
    case Digits => '0' <= ch <= '9'
    case Bits => ch == '0' || ch == '1'
    case Spaces => ch == ' ' || '\t' <= ch <= '\r'
  }

  predicate All(c: Class, s: string) {
    forall i :: 0 <= i < |s| ==> In(c, s[i])
  }

  datatype Re = Done | Eol | One(c: Class, next: Re) | Star(c: Class, next: Re)

  /** One matched segment per item, and the text after the match. */
  datatype Found = Found(segs: seq<string>, post: string)

  function Run(c: Class, s: string): (n: nat)
    ensures n <= |s| && All(c, s[..n]) && (n < |s| ==> !In(c, s[n]))
  {
    if s == "" || !In(c, s[0]) then 0
    else
      var n := Run(c, s[1..]);
      assert s[..n + 1] == [s[0]] + s[1..][..n];
      n + 1
  }

  function Items(re: Re): nat {
    match re
    case One(_, next) => 1 + Items(next)
    case Star(_, next) => 1 + Items(next)
    case _ => 0
  }

  function Match(re: Re, s: string): (m: Option<Found>)
    ensures m.Some? ==> |m.value.segs| == Items(re)
    decreases re, 0
  {
    match re
    case Done => Some(Found([], s))
    case Eol => if s == "" then Some(Found([], "")) else None
    case One(c, next) =>
      if s == "" || !In(c, s[0]) then None else Prepend(s[..1], Match(next, s[1..]))
    case Star(c, next) => TryStar(next, s, Run(c, s))
  }

  function Prepend(seg: string, m: Option<Found>): Option<Found> {
    if m.None? then None else Some(Found([seg] + m.value.segs, m.value.post))
  }

  /** Gives the star `k` characters, or fewer when the rest does not match. */
  function TryStar(next: Re, s: string, k: nat): (m: Option<Found>)
    requires k <= |s|
    ensures m.Some? ==> |m.value.segs| == 1 + Items(next)
    decreases next, k + 1
  {
    var m := Match(next, s[k..]);
    if m.Some? then Prepend(s[..k], m)
    else if k == 0 then None
    else TryStar(next, s, k - 1)
  }

  /** The leftmost position where the expression matches. */
  function Find(re: Re, s: string, from: nat): (at: Option<nat>)
    requires from <= |s|
    ensures at.Some? ==> from <= at.value <= |s| && Match(re, s[at.value..]).Some?
    ensures forall i :: from <= i <= |s| && (at.Some? ==> i < at.value) ==> Match(re, s[i..]).None?
    decreases |s| - from
  {
    if Match(re, s[from..]).Some? then Some(from)
    else if from == |s| then None
    else Find(re, s, from + 1)
  }

  /** `segs` cut a prefix of `s` as the expression asks, leaving `post`. */
  predicate Fits(re: Re, s: string, segs: seq<string>, post: string)
    decreases re
  {
    match re
    case Done => segs == [] && post == s
    case Eol => segs == [] && post == s == ""
    case One(c, next) =>
      && segs != [] && |segs[0]| == 1 && In(c, segs[0][0])
      && segs[0] <= s && Fits(next, s[1..], segs[1..], post)
    case Star(c, next) =>
      && segs != [] && All(c, segs[0])
      && segs[0] <= s && Fits(next, s[|segs[0]|..], segs[1..], post)
  }

  lemma {:induction false} MatchFits(re: Re, s: string)
    ensures Match(re, s).Some? ==> Fits(re, s, Match(re, s).value.segs, Match(re, s).value.post)
    decreases re, 0
  {
    match re
    case Done =>
    case Eol =>
    case One(c, next) =>
      if s != "" && In(c, s[0]) {
        MatchFits(next, s[1..]);
        if Match(re, s).Some? {
          assert Match(re, s).value.segs[1..] == Match(next, s[1..]).value.segs;
        }
      }
    case Star(c, next) =>
      TryStarFits(c, next, s, Run(c, s));
  }

  lemma {:induction false} TryStarFits(c: Class, next: Re, s: string, k: nat)
    requires k <= |s| && All(c, s[..k])
    ensures TryStar(next, s, k).Some? ==>
      Fits(Star(c, next), s, TryStar(next, s, k).value.segs, TryStar(next, s, k).value.post)
    decreases next, k + 1
  {
    MatchFits(next, s[k..]);
    if Match(next, s[k..]).Some? {
      assert TryStar(next, s, k).value.segs[1..] == Match(next, s[k..]).value.segs;
    } else if k > 0 {
      assert forall i :: 0 <= i < k - 1 ==> s[..k - 1][i] == s[..k][i];
      TryStarFits(c, next, s, k - 1);
    }
  }

  // Rules that evaluate a match along a text of known shape.

  lemma {:induction false} OneTakes(c: Class, next: Re, ch: char, t: string)
    requires In(c, ch)
    ensures Match(One(c, next), [ch] + t) == Prepend([ch], Match(next, t))
  {
    assert ([ch] + t)[1..] == t && ([ch] + t)[..1] == [ch];
  }

  lemma {:induction false} RunIs(c: Class, a: string, t: string)
    requires All(c, a) && (t == "" || !In(c, t[0]))
    ensures Run(c, a + t) == |a|
  {
    if a == "" {
      assert a + t == t;
    } else {
      assert (a + t)[1..] == a[1..] + t;
      RunIs(c, a[1..], t);
    }
  }

  lemma {:induction false} StarTakes(c: Class, next: Re, a: string, t: string)
    requires All(c, a) && (t == "" || !In(c, t[0])) && Match(next, t).Some?
    ensures Match(Star(c, next), a + t) == Prepend(a, Match(next, t))
  {
    RunIs(c, a, t);
    assert (a + t)[|a|..] == t && (a + t)[..|a|] == a;
  }

  /** The star gives back its last character when the next item needs it. */
  lemma {:induction false} StarGivesBack(c: Class, next: Re, a: string, ch: char, t: string)
    requires All(c, a) && In(c, ch) && (t == "" || !In(c, t[0]))
    requires Match(next, t).None? && Match(next, [ch] + t).Some?
    ensures Match(Star(c, next), a + ([ch] + t)) == Prepend(a, Match(next, [ch] + t))
  {
    var s := a + ([ch] + t);
    assert s == (a + [ch]) + t;
    RunIs(c, a + [ch], t);
    assert s[|a| + 1..] == t && s[|a|..] == [ch] + t && s[..|a|] == a;
    assert TryStar(next, s, |a| + 1) == TryStar(next, s, |a|);
  }

  /** A text splits in one way into a run of a class and a rest that starts outside it. */
  lemma {:induction false} SplitUnique(c: Class, u: string, v: string, a: string, t: string)
    requires u + v == a + t && All(c, u) && All(c, a)
    requires v != "" && !In(c, v[0]) && t != "" && !In(c, t[0])
    ensures u == a && v == t
  {
    RunIs(c, u, v);
    RunIs(c, a, t);
    assert (u + v)[..|u|] == u && (a + t)[..|a|] == a;
    assert (u + v)[|u|..] == v && (a + t)[|a|..] == t;
  }
}
