/** Text as bytes: UTF-8 (RFC 3629) and the lossy decoding that `String::from_utf8_lossy` applies to a
    request head. */
module Utf8Text {
  import opened Basics
  import opened ByteStream

  /** The UTF-8 bytes of one character. */
  function Utf8Char(c: char): seq<byte> {
    var n := c as int;
    if n < 0x80 then [n]
    else if n < 0x800 then [0xC0 + n / 64, 0x80 + n % 64]
    else if n < 0x10000 then [0xE0 + n / 4096, 0x80 + n / 64 % 64, 0x80 + n % 64]
    else [0xF0 + n / 262144, 0x80 + n / 4096 % 64, 0x80 + n / 64 % 64, 0x80 + n % 64]
  }

  function Utf8(s: string): seq<byte> {
    if s == [] then [] else Utf8Char(s[0]) + Utf8(s[1..])
  }

  // ----- Decoding

  const REPLACEMENT: char := '\U{FFFD}'

  /** How many bytes a character with this first byte takes, or zero if none starts with it. */
  function Width(b: byte): nat {
    if b < 0x80 then 1
    else if 0xC2 <= b <= 0xDF then 2
    else if 0xE0 <= b <= 0xEF then 3
    else if 0xF0 <= b <= 0xF4 then 4
    else 0
  }

  predicate Continues(b: byte) { 0x80 <= b <= 0xBF }

  /** The second bytes a first byte admits: no overlong form, no surrogate, nothing past the last
      code point. */
  predicate Follows(first: byte, second: byte) {
    && Continues(second)
    && (first == 0xE0 ==> second >= 0xA0) && (first == 0xED ==> second <= 0x9F)
    && (first == 0xF0 ==> second >= 0x90) && (first == 0xF4 ==> second <= 0x8F)
  }

  /** How many bytes of `s` belong to its first character, or to the longest start of one. */
  function Taken(s: seq<byte>): (n: nat)
    requires s != []
    ensures 1 <= n <= |s| && n <= 4
  {
    var w := Width(s[0]);
    if w <= 1 || |s| < 2 || !Follows(s[0], s[1]) then 1
    else if w == 2 || |s| < 3 || !Continues(s[2]) then 2
    else if w == 3 || |s| < 4 || !Continues(s[3]) then 3
    else 4
  }

  function Two(b0: int, b1: int): int { (b0 - 0xC0) * 64 + (b1 - 0x80) }

  function Three(b0: int, b1: int, b2: int): int { (b0 - 0xE0) * 4096 + (b1 - 0x80) * 64 + (b2 - 0x80) }

  function Four(b0: int, b1: int, b2: int, b3: int): int {
    (b0 - 0xF0) * 262144 + (b1 - 0x80) * 4096 + (b2 - 0x80) * 64 + (b3 - 0x80)
  }

  /** The first character of `s`; a start that is not completed is one replacement character. */
  function First(s: seq<byte>): char
    requires s != []
  {
    var w := Width(s[0]);
    if w == 0 || Taken(s) < w then REPLACEMENT
    else if w == 1 then s[0] as char
    else if w == 2 then Two(s[0], s[1]) as char
    else if w == 3 then Three(s[0], s[1], s[2]) as char
    else Four(s[0], s[1], s[2], s[3]) as char
  }

  /** `String::from_utf8_lossy`. */
  function Lossy(s: seq<byte>): string {
    if s == [] then [] else [First(s)] + Lossy(s[Taken(s)..])
  }

  // ----- Decoding undoes encoding

  lemma OneByte(c: char, rest: seq<byte>)
    requires c as int < 0x80
    ensures Taken(Utf8Char(c) + rest) == 1 && First(Utf8Char(c) + rest) == c
  {
  }

  lemma TwoBytes(c: char, rest: seq<byte>)
    requires 0x80 <= c as int < 0x800
    ensures Taken(Utf8Char(c) + rest) == 2 && First(Utf8Char(c) + rest) == c
  {
  }

  lemma ThreeBytes(c: char, rest: seq<byte>)
    requires 0x800 <= c as int < 0x10000
    ensures Taken(Utf8Char(c) + rest) == 3 && First(Utf8Char(c) + rest) == c
  {
    ThreeDigits(c as int, c as int / 4096, c as int / 64 % 64, c as int % 64);
  }

  /** The digits of a code point that takes three bytes are ones its bytes may hold. */
  lemma ThreeDigits(n: int, d0: int, d1: int, d2: int)
    requires 0x800 <= n < 0x10000 && !(0xD800 <= n < 0xE000)
    requires d0 == n / 4096 && d1 == n / 64 % 64 && d2 == n % 64
    ensures n == d0 * 4096 + d1 * 64 + d2 && 0 <= d0 < 16 && 0 <= d1 < 64 && 0 <= d2 < 64
    ensures (d0 == 0 ==> d1 >= 32) && (d0 == 13 ==> d1 < 32)
  {
  }

  lemma FourBytes(c: char, rest: seq<byte>)
    requires 0x10000 <= c as int
    ensures Taken(Utf8Char(c) + rest) == 4 && First(Utf8Char(c) + rest) == c
  {
    FourDigits(c as int, c as int / 262144, c as int / 4096 % 64, c as int / 64 % 64, c as int % 64);
  }

  lemma FourDigits(n: int, d0: int, d1: int, d2: int, d3: int)
    requires 0x10000 <= n < 0x11_0000
    requires d0 == n / 262144 && d1 == n / 4096 % 64 && d2 == n / 64 % 64 && d3 == n % 64
    ensures n == d0 * 262144 + d1 * 4096 + d2 * 64 + d3
    ensures 0 <= d0 < 5 && 0 <= d1 < 64 && 0 <= d2 < 64 && 0 <= d3 < 64
    ensures (d0 == 0 ==> d1 >= 16) && (d0 == 4 ==> d1 < 16)
  {
    var m := n / 64;
    assert n == m * 64 + d3;
    var k := m / 64;
    assert k == n / 4096 && m == k * 64 + d2;
    assert k / 64 == d0 && k == d0 * 64 + d1;
  }

  lemma CharIsDecoded(c: char, rest: seq<byte>)
    ensures Utf8Char(c) != []
    ensures Taken(Utf8Char(c) + rest) == |Utf8Char(c)| && First(Utf8Char(c) + rest) == c
  {
    var n := c as int;
    if n < 0x80 {
      OneByte(c, rest);
    } else if n < 0x800 {
      TwoBytes(c, rest);
    } else if n < 0x10000 {
      ThreeBytes(c, rest);
    } else {
      FourBytes(c, rest);
    }
  }

  lemma LossyStep(head: seq<byte>, tail: seq<byte>, c: char)
    requires head != [] && Taken(head + tail) == |head| && First(head + tail) == c
    ensures Lossy(head + tail) == [c] + Lossy(tail)
  {
    assert (head + tail)[|head|..] == tail;
  }

  lemma LossyOfChar(c: char, tail: seq<byte>)
    ensures Lossy(Utf8Char(c) + tail) == [c] + Lossy(tail)
  {
    CharIsDecoded(c, tail);
    LossyStep(Utf8Char(c), tail, c);
  }

  /** Text is decoded exactly, whatever bytes follow it. */
  lemma {:induction false} LossyOfUtf8(s: string, rest: seq<byte>)
    ensures Lossy(Utf8(s) + rest) == s + Lossy(rest)
    decreases |s|
  {
    if s == [] {
      assert Utf8(s) + rest == rest;
      assert s + Lossy(rest) == Lossy(rest);
    } else {
      LossyOfUtf8(s[1..], rest);
      LossyOfChar(s[0], Utf8(s[1..]) + rest);
      LossyJoin(Utf8Char(s[0]), s[0], Utf8(s[1..]), s[1..], rest);
      assert [s[0]] + s[1..] == s;
    }
  }

  lemma LossyJoin(head: seq<byte>, c: char, bytes: seq<byte>, text: string, rest: seq<byte>)
    requires Lossy(head + (bytes + rest)) == [c] + Lossy(bytes + rest)
    requires Lossy(bytes + rest) == text + Lossy(rest)
    ensures Lossy(head + bytes + rest) == [c] + text + Lossy(rest)
  {
    Regroup(head, bytes, rest);
    assert [c] + (text + Lossy(rest)) == [c] + text + Lossy(rest);
  }

  lemma Decoded(s: string)
    ensures Lossy(Utf8(s)) == s
  {
    LossyOfUtf8(s, []);
    assert Utf8(s) + [] == Utf8(s) && s + [] == s;
  }

  /** So no two texts have the same bytes. */
  lemma Utf8IsInjective(s: string, t: string)
    ensures Utf8(s) == Utf8(t) <==> s == t
  {
    Decoded(s);
    Decoded(t);
  }

  // ----- Nothing is invented

  /** The bytes taken for a character other than the replacement are exactly its UTF-8 bytes: no
      overlong form, surrogate or broken sequence is ever read as a character. */
  lemma NothingIsInvented(s: seq<byte>)
    requires s != [] && First(s) != REPLACEMENT
    ensures Utf8Char(First(s)) == s[..Taken(s)]
  {
    var w := Width(s[0]);
    assert Taken(s) >= w;
    if w == 2 {
      TwoBack(s[0], s[1]);
    } else if w == 3 {
      ThreeBack(s[0], s[1], s[2]);
    } else if w == 4 {
      FourBack(s[0], s[1], s[2], s[3]);
    }
  }

  lemma TwoBack(b0: byte, b1: byte)
    requires Width(b0) == 2 && Follows(b0, b1)
    ensures 0x80 <= Two(b0, b1) < 0x800 && Two(b0, b1) / 64 == b0 - 0xC0 && Two(b0, b1) % 64 == b1 - 0x80
  {
  }

  lemma ThreeBack(b0: byte, b1: byte, b2: byte)
    requires Width(b0) == 3 && Follows(b0, b1) && Continues(b2)
    ensures var n := Three(b0, b1, b2);
      0x800 <= n < 0x10000 && n / 4096 == b0 - 0xE0 && n / 64 % 64 == b1 - 0x80 && n % 64 == b2 - 0x80
  {
  }

  lemma FourBack(b0: byte, b1: byte, b2: byte, b3: byte)
    requires Width(b0) == 4 && Follows(b0, b1) && Continues(b2) && Continues(b3)
    ensures var n := Four(b0, b1, b2, b3);
      && 0x10000 <= n < 0x110000 && n / 262144 == b0 - 0xF0
      && n / 4096 % 64 == b1 - 0x80 && n / 64 % 64 == b2 - 0x80 && n % 64 == b3 - 0x80
  {
    var d0, d1, d2, d3 := b0 - 0xF0, b1 - 0x80, b2 - 0x80, b3 - 0x80;
    var n, m, k := Four(b0, b1, b2, b3), d0 * 4096 + d1 * 64 + d2, d0 * 64 + d1;
    Digit(m, d3, n);
    Digit(k, d2, m);
    Digit(d0, d1, k);
    assert n / 4096 == n / 64 / 64 && n / 262144 == n / 64 / 64 / 64;
  }

  lemma Digit(high: int, low: int, n: int)
    requires 0 <= low < 64 && n == high * 64 + low
    ensures n / 64 == high && n % 64 == low
  {
  }

  predicate Ascii(t: string) { forall i :: 0 <= i < |t| ==> t[i] as int < 0x80 }

  /** ASCII text at the start of what was decoded was there, byte for byte. */
  lemma {:induction false} AsciiWasThere(t: string, s: seq<byte>)
    requires Ascii(t) && t <= Lossy(s)
    ensures Utf8(t) <= s
    decreases |t|
  {
    if t != [] {
      assert t[0] == Lossy(s)[0] == First(s);
      AsciiFirst(s);
      assert Lossy(s)[1..] == Lossy(s[1..]);
      AsciiWasThere(t[1..], s[1..]);
      assert Utf8(t) == [t[0] as int] + Utf8(t[1..]);
    }
  }

  lemma AsciiFirst(s: seq<byte>)
    requires s != [] && First(s) as int < 0x80
    ensures s[0] == First(s) as int && Taken(s) == 1
  {
    NothingIsInvented(s);
    assert Utf8Char(First(s)) == [First(s) as int];
  }

  lemma {:induction false} Utf8Concat(a: string, b: string)
    ensures Utf8(a + b) == Utf8(a) + Utf8(b)
    decreases |a|
  {
    if a == [] {
      assert a + b == b;
    } else {
      Utf8Concat(a[1..], b);
      assert (a + b)[1..] == a[1..] + b;
      Regroup(Utf8Char(a[0]), Utf8(a[1..]), Utf8(b));
    }
  }
}
