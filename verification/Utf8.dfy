/** UTF-8 as unicode/utf8 reads it (RFC 3629, section 4): a byte that starts no well-formed sequence stands alone. */
module Utf8 {
  import opened Common

  predicate IsContinuation(b: byte) {
    0x80 <= b < 0xC0
  }

  predicate In(s: seq<byte>, i: nat, low: int, high: int) {
    i < |s| && low <= s[i] <= high
  }

  /** The length of the well-formed sequence at the start of s, 0 when there is none. */
  function Width(s: seq<byte>): (w: nat)
    ensures w <= 4 && w <= |s|
  {
    if s == [] then 0
    else if s[0] < 0x80 then 1
    else if 0xC2 <= s[0] < 0xE0 then
      if In(s, 1, 0x80, 0xBF) then 2 else 0
    else if 0xE0 <= s[0] < 0xF0 then
      if In(s, 1, if s[0] == 0xE0 then 0xA0 else 0x80, if s[0] == 0xED then 0x9F else 0xBF)
        && In(s, 2, 0x80, 0xBF) then 3 else 0
    else if 0xF0 <= s[0] < 0xF5 then
      if In(s, 1, if s[0] == 0xF0 then 0x90 else 0x80, if s[0] == 0xF4 then 0x8F else 0xBF) && In(s, 2, 0x80, 0xBF)
        && In(s, 3, 0x80, 0xBF)
      then 4 else 0
    else 0
  }

  predicate Valid(s: seq<byte>)
    decreases |s|
  {
    s == [] || (Width(s) > 0 && Valid(s[Width(s)..]))
  }

  /** Only the bytes of a sequence decide its width. */
  lemma {:induction false} WidthOfPrefix(s: seq<byte>, n: nat)
    requires Width(s) <= n <= |s|
    ensures Width(s) > 0 ==> Width(s[..n]) == Width(s)
  {
  }

  lemma {:induction false} SequenceShape(s: seq<byte>)
    requires Width(s) > 0
    ensures !IsContinuation(s[0])
    ensures forall i :: 1 <= i < Width(s) ==> IsContinuation(s[i])
  {
  }

  /** A valid text cut before a byte that is no continuation is still valid. */
  lemma {:induction false} CutIsValid(s: seq<byte>, end: nat)
    requires Valid(s) && end < |s| && !IsContinuation(s[end])
    ensures Valid(s[..end])
    decreases |s|
  {
    var w := Width(s);
    if end > 0 {
      SequenceShape(s);
      assert w <= end;
      WidthOfPrefix(s, end);
      assert s[w..][end - w] == s[end] && s[w..][..end - w] == s[..end][w..];
      CutIsValid(s[w..], end - w);
    }
  }

  /** In valid text at most three bytes lie between a position and the start of its sequence. */
  lemma {:induction false} StartIsNear(s: seq<byte>, i: nat) returns (start: nat)
    requires Valid(s) && i < |s|
    ensures start <= i <= start + 3 && !IsContinuation(s[start])
    decreases |s|
  {
    var w := Width(s);
    SequenceShape(s);
    if i < w {
      start := 0;
    } else {
      start := StartIsNear(s[w..], i - w);
      start := start + w;
    }
  }
}
