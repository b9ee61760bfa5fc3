/** The UTF-8 encoding of names (RFC 3629, section 3), as far as the ROM image needs it. */
module Utf8 {
  newtype byte = x: int | 0 <= x < 0x100

  function EncodeChar(c: char): (bs: seq<byte>)
    ensures 1 <= |bs| <= 4
  {
    var n := c as int;
    if n < 0x80 then [n as byte]
    else if n < 0x800 then [(0xC0 + n / 0x40) as byte, (0x80 + n % 0x40) as byte]
    else if n < 0x10000 then
      [(0xE0 + n / 0x1000) as byte, (0x80 + n / 0x40 % 0x40) as byte, (0x80 + n % 0x40) as byte]
    else
      [(0xF0 + n / 0x40000) as byte, (0x80 + n / 0x1000 % 0x40) as byte,
       (0x80 + n / 0x40 % 0x40) as byte, (0x80 + n % 0x40) as byte]
  }

  function Encode(s: string): seq<byte> {
    if s == "" then [] else EncodeChar(s[0]) + Encode(s[1..])
  }

  /** What the encoding of a character starts with tells its length. */
  function LengthFrom(b: byte): nat {
    if b < 0x80 then 1 else if b < 0xE0 then 2 else if b < 0xF0 then 3 else 4
  }

  lemma LengthFromFirst(c: char)
    ensures |EncodeChar(c)| == LengthFrom(EncodeChar(c)[0])
  {
  }

  /** The code point that an encoded character stands for. */
  function Value(bs: seq<byte>): int {
    if |bs| == 1 then bs[0] as int
    else if |bs| == 2 then (bs[0] as int - 0xC0) * 0x40 + bs[1] as int - 0x80
    else if |bs| == 3 then
      (bs[0] as int - 0xE0) * 0x1000 + (bs[1] as int - 0x80) * 0x40 + bs[2] as int - 0x80
    else if |bs| == 4 then
      (bs[0] as int - 0xF0) * 0x40000 + (bs[1] as int - 0x80) * 0x1000 + (bs[2] as int - 0x80) * 0x40 + bs[3] as int - 0x80
    else 0
  }

  lemma ValueOfEncoding(c: char)
    ensures Value(EncodeChar(c)) == c as int
  {
    var n := c as int;
    assert n / 0x1000 == n / 0x40 / 0x40;
    assert n / 0x40000 == n / 0x1000 / 0x40;
  }

  predicate Continuation(b: byte) {
    0x80 <= b < 0xC0
  }

  lemma ShapeOfTwo(n: int)
    requires 0x80 <= n < 0x800
    ensures 0xC2 <= 0xC0 + n / 0x40 < 0xE0 && (0xC0 + n / 0x40) % 0x20 == n / 0x40 && (0x80 + n % 0x40) % 0x40 == n % 0x40
  {
  }

  lemma ShapeOfThree(n: int)
    requires 0x800 <= n < 0x10000
    ensures 0xE0 <= 0xE0 + n / 0x1000 < 0xF0 && (0xE0 + n / 0x1000) % 0x10 == n / 0x1000
    ensures n == n / 0x1000 * 0x1000 + n / 0x40 % 0x40 * 0x40 + n % 0x40
  {
    assert n / 0x1000 == n / 0x40 / 0x40;
  }

  lemma ShapeOfFour(n: int)
    requires 0x10000 <= n < 0x11_0000
    ensures 0xF0 <= 0xF0 + n / 0x40000 < 0xF5 && (0xF0 + n / 0x40000) % 0x08 == n / 0x40000
    ensures n == n / 0x40000 * 0x40000 + n / 0x1000 % 0x40 * 0x1000 + n / 0x40 % 0x40 * 0x40 + n % 0x40
  {
    assert n / 0x1000 == n / 0x40 / 0x40;
    assert n / 0x40000 == n / 0x1000 / 0x40;
  }

  lemma SixBits(n: int)
    requires n >= 0
    ensures 0x80 <= 0x80 + n % 0x40 < 0xC0 && (0x80 + n % 0x40) % 0x40 == n % 0x40
  {
  }

  /** The first byte tells the length, the others are continuation bytes, and the bits they carry are the code point. */
  lemma EncodingShape(c: char)
    ensures var bs := EncodeChar(c);
      && (forall i :: 1 <= i < |bs| ==> Continuation(bs[i]))
      && (|bs| == 1 ==> bs[0] < 0x80 && c as int == bs[0] as int)
      && (|bs| == 2 ==> 0xC2 <= bs[0] < 0xE0 && c as int == bs[0] as int % 0x20 * 0x40 + bs[1] as int % 0x40)
      && (|bs| == 3 ==> 0xE0 <= bs[0] < 0xF0
                        && c as int == bs[0] as int % 0x10 * 0x1000 + bs[1] as int % 0x40 * 0x40 + bs[2] as int % 0x40)
      && (|bs| == 4 ==> 0xF0 <= bs[0] < 0xF5
                        && c as int == bs[0] as int % 0x08 * 0x40000 + bs[1] as int % 0x40 * 0x1000
                                       + bs[2] as int % 0x40 * 0x40 + bs[3] as int % 0x40)
  {
    var n := c as int;
    SixBits(n);
    SixBits(n / 0x40);
    SixBits(n / 0x1000);
    if 0x80 <= n < 0x800 {
      ShapeOfTwo(n);
    } else if 0x800 <= n < 0x10000 {
      ShapeOfThree(n);
    } else if 0x10000 <= n {
      ShapeOfFour(n);
    }
  }

  lemma SameBytesSameChar(a: char, b: char)
    requires EncodeChar(a) == EncodeChar(b)
    ensures a == b
  {
    ValueOfEncoding(a);
    ValueOfEncoding(b);
  }

  /** The encoding loses nothing. */
  lemma {:induction false} EncodeInjective(s: string, t: string)
    requires Encode(s) == Encode(t)
    ensures s == t
  {
    if s == "" || t == "" {
      assert s != "" ==> |Encode(s)| > 0;
      assert t != "" ==> |Encode(t)| > 0;
    } else {
      var x, y := EncodeChar(s[0]), EncodeChar(t[0]);
      assert Encode(s)[0] == x[0] && Encode(t)[0] == y[0];
      LengthFromFirst(s[0]);
      LengthFromFirst(t[0]);
      assert x == Encode(s)[..|x|] == y;
      SameBytesSameChar(s[0], t[0]);
      assert Encode(s[1..]) == Encode(s)[|x|..] == Encode(t[1..]);
      EncodeInjective(s[1..], t[1..]);
    }
  }

  /** Only NUL is encoded with a zero byte. */
  lemma EncodeCharZero(c: char)
    ensures 0 in EncodeChar(c) <==> c == '\0'
  {
    if c == '\0' {
      assert EncodeChar(c)[0] == 0;
    }
  }

  lemma {:induction false} EncodeAppend(s: string, t: string)
    ensures Encode(s + t) == Encode(s) + Encode(t)
  {
    if s == "" {
      assert s + t == t;
    } else {
      assert (s + t)[1..] == s[1..] + t;
      EncodeAppend(s[1..], t);
    }
  }

  predicate IsAscii(s: string) {
    forall i :: 0 <= i < |s| ==> s[i] < 0x80 as char
  }

  /** The bytes of the encoding beyond one for each character, by code points. */
  function ContinuationBytes(s: string): nat {
    if s == "" then 0
    else
      var n := s[0] as int;
      (if n < 0x80 then 0 else if n < 0x800 then 1 else if n < 0x10000 then 2 else 3) + ContinuationBytes(s[1..])
  }

  lemma {:induction false} EncodeLength(s: string)
    ensures |Encode(s)| == |s| + ContinuationBytes(s)
  {
    if s != "" {
      EncodeLength(s[1..]);
    }
  }

  lemma {:induction false} AsciiHasNone(s: string)
    requires IsAscii(s)
    ensures ContinuationBytes(s) == 0
  {
    if s != "" {
      AsciiHasNone(s[1..]);
    }
  }
}
