/** Base64 with padding (RFC 4648, section 4), in which downloads are kept. */
module Base64 {
  import opened Common

  const PADDING: byte := 61

  function Digit(n: int): byte
    requires 0 <= n < 64
  {
    if n < 26 then 65 + n else if n < 52 then 71 + n else if n < 62 then n - 4 else if n == 62 then 43 else 47
  }

  function DigitValue(b: byte): Option<int> {
    if 65 <= b <= 90 then Some(b - 65)
    else if 97 <= b <= 122 then Some(b - 71)
    else if 48 <= b <= 57 then Some(b + 4)
    else if b == 43 then Some(62)
    else if b == 47 then Some(63)
    else None
  }

  // The four digit values of three bytes.

  function D1(x: byte): (d: nat)
    ensures d < 64
  {
    x / 4
  }

  function D2(x: byte, y: byte): (d: nat)
    ensures d < 64
  {
    x % 4 * 16 + y / 16
  }

  function D3(y: byte, z: byte): (d: nat)
    ensures d < 64
  {
    y % 16 * 4 + z / 64
  }

  function D4(z: byte): (d: nat)
    ensures d < 64
  {
    z % 64
  }

  function Encode(data: seq<byte>): (text: seq<byte>)
    ensures |text| == EncodedLen(|data|)
  {
    if data == [] then []
    else if |data| == 1 then
      [Digit(D1(data[0])), Digit(D2(data[0], 0)), PADDING, PADDING]
    else if |data| == 2 then
      [Digit(D1(data[0])), Digit(D2(data[0], data[1])), Digit(D3(data[1], 0)), PADDING]
    else
      GroupLength(|data|);
      [Digit(D1(data[0])), Digit(D2(data[0], data[1])), Digit(D3(data[1], data[2])), Digit(D4(data[2]))]
        + Encode(data[3..])
  }

  lemma {:induction false} GroupLength(n: nat)
    requires n >= 3
    ensures EncodedLen(n) == EncodedLen(n - 3) + 4
  {
  }

  function EncodedLen(n: nat): (len: nat)
    ensures n <= len
  {
    (n + 2) / 3 * 4
  }

  // The three bytes of four digit values.

  function First(a: int, b: int): byte { (a * 4 + b / 16) % 256 }

  function Second(b: int, c: int): byte { (b * 16 + c / 4) % 256 }

  function Third(c: int, d: int): byte { (c * 64 + d) % 256 }

  function Decode(text: seq<byte>): Option<seq<byte>> {
    if text == [] then Some([])
    else if |text| < 4 then None
    else
      var a, b, c, d := DigitValue(text[0]), DigitValue(text[1]), DigitValue(text[2]), DigitValue(text[3]);
      if a.None? || b.None? then None
      else if |text| == 4 && text[2] == PADDING && text[3] == PADDING then Some([First(a.value, b.value)])
      else if c.None? then None
      else if |text| == 4 && text[3] == PADDING then
        Some([First(a.value, b.value), Second(b.value, c.value)])
      else if d.None? then None
      else
        var rest := Decode(text[4..]);
        if rest.None? then None
        else Some([First(a.value, b.value), Second(b.value, c.value), Third(c.value, d.value)] + rest.value)
  }

  lemma {:induction false} DigitRoundTrip(n: int)
    requires 0 <= n < 64
    ensures DigitValue(Digit(n)) == Some(n) && Digit(n) != PADDING
  {
  }

  // Four digits carry three bytes.

  lemma {:induction false} FirstByte(x: byte, y: byte)
    ensures First(D1(x), D2(x, y)) == x
  {
    assert D2(x, y) / 16 == x % 4;
  }

  lemma {:induction false} SecondByte(x: byte, y: byte, z: byte)
    ensures Second(D2(x, y), D3(y, z)) == y
  {
    assert D3(y, z) / 4 == y % 16;
    assert D2(x, y) * 16 + y % 16 == 256 * (x % 4) + y;
  }

  lemma {:induction false} ThirdByte(y: byte, z: byte)
    ensures Third(D3(y, z), D4(z)) == z
  {
    assert D3(y, z) * 64 + z % 64 == 256 * (y % 16) + z;
  }

  lemma {:induction false} GroupDecodes(text: seq<byte>, a: int, b: int, c: int, d: int)
    requires |text| >= 4 && 0 <= a < 64 && 0 <= b < 64 && 0 <= c < 64 && 0 <= d < 64
    requires text[0] == Digit(a) && text[1] == Digit(b) && text[2] == Digit(c) && text[3] == Digit(d)
    ensures Decode(text[4..]).Some? ==>
              Decode(text) == Some([First(a, b), Second(b, c), Third(c, d)] + Decode(text[4..]).value)
  {
    DigitRoundTrip(a);
    DigitRoundTrip(b);
    DigitRoundTrip(c);
    DigitRoundTrip(d);
  }

  lemma {:induction false} LongDecodes(x: byte, y: byte, z: byte, rest: seq<byte>)
    requires Decode(Encode(rest)) == Some(rest)
    ensures Decode(Encode([x, y, z] + rest)) == Some([x, y, z] + rest)
  {
    var data := [x, y, z] + rest;
    assert data[3..] == rest;
    var head := [Digit(D1(x)), Digit(D2(x, y)), Digit(D3(y, z)), Digit(D4(z))];
    var text := head + Encode(rest);
    assert Encode(data) == text && text[4..] == Encode(rest);
    GroupDecodes(text, D1(x), D2(x, y), D3(y, z), D4(z));
    FirstByte(x, y);
    SecondByte(x, y, z);
    ThirdByte(y, z);
  }

  lemma {:induction false} PaddedDecodes(a: int, b: int, c: int)
    requires 0 <= a < 64 && 0 <= b < 64 && 0 <= c < 64
    ensures Decode([Digit(a), Digit(b), PADDING, PADDING]) == Some([First(a, b)])
    ensures Decode([Digit(a), Digit(b), Digit(c), PADDING]) == Some([First(a, b), Second(b, c)])
  {
    DigitRoundTrip(a);
    DigitRoundTrip(b);
    DigitRoundTrip(c);
  }

  lemma {:induction false} OneByteDecodes(x: byte)
    ensures Decode(Encode([x])) == Some([x])
  {
    PaddedDecodes(D1(x), D2(x, 0), 0);
    FirstByte(x, 0);
  }

  lemma {:induction false} TwoBytesDecode(x: byte, y: byte)
    ensures Decode(Encode([x, y])) == Some([x, y])
  {
    PaddedDecodes(D1(x), D2(x, y), D3(y, 0));
    FirstByte(x, y);
    SecondByte(x, y, 0);
  }

  /** What is kept for a download decodes to the download. */
  lemma {:induction false} EncodeDecodes(data: seq<byte>)
    ensures Decode(Encode(data)) == Some(data)
    decreases |data|
  {
    if |data| >= 3 {
      EncodeDecodes(data[3..]);
      LongDecodes(data[0], data[1], data[2], data[3..]);
      assert data == [data[0], data[1], data[2]] + data[3..];
    } else if |data| == 2 {
      TwoBytesDecode(data[0], data[1]);
      assert data == [data[0], data[1]];
    } else if |data| == 1 {
      OneByteDecodes(data[0]);
      assert data == [data[0]];
    }
  }

  /** A longer text never has a shorter encoding, so room for the longest download is room for every one. */
  lemma {:induction false} EncodedLenIsMonotone(n: nat, m: nat)
    requires n <= m
    ensures EncodedLen(n) <= EncodedLen(m)
  {
  }

  // What the text is, digit by digit.

  const ALPHABET_0 := "ABCDEFGHIJKLMNOP"
  const ALPHABET_1 := "QRSTUVWXYZabcdef"
  const ALPHABET_2 := "ghijklmnopqrstuv"
  const ALPHABET_3 := "wxyz0123456789+/"

  /** The character of a digit value. */
  function Character(n: nat): char
    requires n < 64
  {
    if n < 16 then ALPHABET_0[n] else if n < 32 then ALPHABET_1[n - 16]
    else if n < 48 then ALPHABET_2[n - 32] else ALPHABET_3[n - 48]
  }

  lemma {:induction false} DigitIsCharacter(n: nat)
    requires n < 64
    ensures Digit(n) == Character(n) as int
  {
  }

  lemma {:induction false} GroupIsBigEndian(x: byte, y: byte, z: byte)
    ensures 262144 * D1(x) + 4096 * D2(x, y) + 64 * D3(y, z) + D4(z) == 65536 * x + 256 * y + z
  {
    assert x == 4 * D1(x) + x % 4 && y == 16 * (y / 16) + y % 16 && z == 64 * (z / 64) + D4(z);
  }

  function ByteAt(data: seq<byte>, i: nat): byte {
    if i < |data| then data[i] else 0
  }

  /** The digits at i stand for the bytes at j, most significant first; padding stands where the data has ended. */
  ghost predicate Stands(text: seq<byte>, i: nat, data: seq<byte>, j: nat, a: nat, b: nat, c: nat, d: nat) {
    && i + 4 <= |text| && a < 64 && b < 64 && c < 64 && d < 64
    && text[i] == Character(a) as int && text[i + 1] == Character(b) as int
    && text[i + 2] == (if j + 1 < |data| then Character(c) as int else 61)
    && text[i + 3] == (if j + 2 < |data| then Character(d) as int else 61)
    && 262144 * a + 4096 * b + 64 * c + d ==
       65536 * ByteAt(data, j) + 256 * ByteAt(data, j + 1) + ByteAt(data, j + 2)
  }

  lemma {:induction false} FirstGroup(data: seq<byte>)
    requires data != []
    ensures var x, y, z := ByteAt(data, 0), ByteAt(data, 1), ByteAt(data, 2);
            Stands(Encode(data), 0, data, 0, D1(x), D2(x, y), D3(y, z), D4(z))
  {
    var x, y, z := ByteAt(data, 0), ByteAt(data, 1), ByteAt(data, 2);
    GroupIsBigEndian(x, y, z);
    DigitIsCharacter(D1(x));
    DigitIsCharacter(D2(x, y));
    DigitIsCharacter(D3(y, z));
    DigitIsCharacter(D4(z));
  }

  lemma {:induction false} LaterGroup(text: seq<byte>, i: nat, data: seq<byte>, j: nat, a: nat, b: nat, c: nat, d: nat)
    requires |text| >= 4 && |data| >= 3 && Stands(text[4..], i, data[3..], j, a, b, c, d)
    ensures Stands(text, i + 4, data, j + 3, a, b, c, d)
  {
    assert ByteAt(data, j + 3) == ByteAt(data[3..], j);
    assert ByteAt(data, j + 3 + 1) == ByteAt(data[3..], j + 1) && ByteAt(data, j + 3 + 2) == ByteAt(data[3..], j + 2);
  }

  /** Every three bytes are the number that their four digits spell in the alphabet of the standard. */
  lemma {:induction false} GroupAt(data: seq<byte>, k: nat) returns (a: nat, b: nat, c: nat, d: nat)
    requires 3 * k < |data|
    ensures Stands(Encode(data), 4 * k, data, 3 * k, a, b, c, d)
    decreases k
  {
    if k > 0 {
      a, b, c, d := GroupAt(data[3..], k - 1);
      assert Encode(data)[4..] == Encode(data[3..]);
      LaterGroup(Encode(data), 4 * (k - 1), data, 3 * (k - 1), a, b, c, d);
    } else {
      var x, y, z := ByteAt(data, 0), ByteAt(data, 1), ByteAt(data, 2);
      a, b, c, d := D1(x), D2(x, y), D3(y, z), D4(z);
      FirstGroup(data);
    }
  }
}
