/**
 How many bytes encoding/json writes for a string. It escapes what RFC 8259, section 7, requires, the characters
 HTML treats specially, the two Unicode line separators, and replaces bytes that are not UTF-8.
 */
module JsonSize {
  import opened Common
  import Utf8

  function EscapedByte(b: byte): nat {
    if b in {8, 9, 10, 12, 13, 34, 92} then 2
    else if b < 32 || b in {38, 60, 62} then 6
    else 1
  }

  /** The bytes between the quotes. */
  function Escaped(s: seq<byte>): nat
    decreases |s|
  {
    if s == [] then 0
    else if s[0] < 0x80 then EscapedByte(s[0]) + Escaped(s[1..])
    else
      var w := Utf8.Width(s);
      if w == 0 then 6 + Escaped(s[1..])
      else if w == 3 && s[0] == 0xE2 && s[1] == 0x80 && s[2] in {0xA8, 0xA9} then 6 + Escaped(s[3..])
      else w + Escaped(s[w..])
  }

  lemma {:induction false} AtMostSixfold(s: seq<byte>)
    ensures Escaped(s) <= 6 * |s|
    decreases |s|
  {
    if s != [] {
      if s[0] < 0x80 || Utf8.Width(s) == 0 {
        AtMostSixfold(s[1..]);
      } else {
        AtMostSixfold(s[Utf8.Width(s)..]);
      }
    }
  }

  function Count(s: seq<byte>, b: byte): nat {
    if s == [] then 0 else (if s[0] == b then 1 else 0) + Count(s[1..], b)
  }

  predicate IsBase64Byte(b: byte) {
    48 <= b <= 57 || 65 <= b <= 90 || 97 <= b <= 122 || b in {43, 47, 61, 10, 13}
  }

  /** Of Base64 text only the line breaks are escaped. */
  lemma {:induction false} Base64Escaped(s: seq<byte>)
    requires forall i :: 0 <= i < |s| ==> IsBase64Byte(s[i])
    ensures Escaped(s) == |s| + Count(s, 13) + Count(s, 10)
    decreases |s|
  {
    if s != [] {
      assert IsBase64Byte(s[0]);
      Base64Escaped(s[1..]);
    }
  }

  function Repeated(b: byte, n: nat): (s: seq<byte>)
    ensures |s| == n && forall i :: 0 <= i < n ==> s[i] == b
  {
    seq(n, i => b)
  }

  lemma {:induction false} RepeatedEscaped(b: byte, n: nat)
    requires b < 0x80
    ensures Escaped(Repeated(b, n)) == EscapedByte(b) * n
    ensures Count(Repeated(b, n), b) == n
    ensures forall c: byte :: c != b ==> Count(Repeated(b, n), c) == 0
    decreases n
  {
    if n > 0 {
      assert Repeated(b, n)[1..] == Repeated(b, n - 1);
      RepeatedEscaped(b, n - 1);
    }
  }
}
