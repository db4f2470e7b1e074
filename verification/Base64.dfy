/** The hand-rolled Base64 encoder of src/basicauth.rs against the decoder of section 4 of RFC 4648,
    and the constant-time comparison. */
module Base64 {
  import opened Basics
  import opened ByteStream

  // ----- The alphabet

  function Symbol(v: nat): char
    requires v < 64
  {
    if v < 26 then 'A' + v as char
    else if v < 52 then 'a' + (v - 26) as char
    else if v < 62 then '0' + (v - 52) as char
    else if v == 62 then '+'
    else '/'
  }

  /** The value of an alphabet character. */
  function Value(c: char): (v: Option<nat>)
    ensures v.Some? ==> v.value < 64
  {
    if 'A' <= c <= 'Z' then Some((c - 'A') as nat)
    else if 'a' <= c <= 'z' then Some((c - 'a') as nat + 26)
    else if '0' <= c <= '9' then Some((c - '0') as nat + 52)
    else if c == '+' then Some(62)
    else if c == '/' then Some(63)
    else None
  }

  lemma SymbolValue(v: nat)
    requires v < 64
    ensures Value(Symbol(v)) == Some(v) && Symbol(v) != '='
  {
  }

  lemma ValueSymbol(c: char)
    requires Value(c).Some?
    ensures Symbol(Value(c).value) == c && c != '='
  {
  }

  /** The table of section 4 of RFC 4648, by its five stretches: A to Z, a to z, 0 to 9, plus, slash. */
  lemma AlphabetIsTheRfcs(v: nat)
    requires v < 63
    ensures Symbol(0) == 'A' && Symbol(25) == 'Z' && Symbol(26) == 'a' && Symbol(51) == 'z'
    ensures Symbol(52) == '0' && Symbol(61) == '9' && Symbol(62) == '+' && Symbol(63) == '/'
    ensures v !in {25, 51, 61, 62} ==> Symbol(v + 1) == Symbol(v) + 1 as char
  {
  }

  // ----- Encoding

  /** The four six-bit values of three bytes, as section 4 of RFC 4648 cuts them. */
  function V0(b0: byte): (v: nat) ensures v < 64 { b0 / 4 }

  function V1(b0: byte, b1: byte): (v: nat) ensures v < 64 { b0 % 4 * 16 + b1 / 16 }

  function V2(b1: byte, b2: byte): (v: nat) ensures v < 64 { b1 % 16 * 4 + b2 / 64 }

  function V3(b2: byte): (v: nat) ensures v < 64 { b2 % 64 }

  /** The four characters of one chunk of one to three bytes. */
  function Group(chunk: seq<byte>): (g: string)
    requires 1 <= |chunk| <= 3
    ensures |g| == 4
  {
    var b1: byte := if |chunk| > 1 then chunk[1] else 0;
    var b2: byte := if |chunk| > 2 then chunk[2] else 0;
    [Symbol(V0(chunk[0])),
     Symbol(V1(chunk[0], b1)),
     if |chunk| > 1 then Symbol(V2(b1, b2)) else '=',
     if |chunk| > 2 then Symbol(V3(b2)) else '=']
  }

  function Encode(input: seq<byte>): string {
    if |input| == 0 then []
    else if |input| <= 3 then Group(input)
    else Group(input[..3]) + Encode(input[3..])
  }

  lemma EncodeFront(s: seq<byte>, front: seq<byte>, rest: seq<byte>)
    requires |front| == 3 && s == front + rest
    ensures Encode(s) == Group(front) + Encode(rest)
  {
  }

  /** Encoding up to the end of a chunk appends that chunk's group. */
  lemma {:induction false} EncodeSnoc(whole: seq<byte>, m: nat, chunk: seq<byte>)
    requires |whole| == 3 * m && 1 <= |chunk| <= 3
    ensures Encode(whole + chunk) == Encode(whole) + Group(chunk)
    decreases m
  {
    if m == 0 {
      assert whole + chunk == chunk;
    } else {
      var front, rest := whole[..3], whole[3..];
      EncodeSnoc(rest, m - 1, chunk);
      EncodeFront(whole, front, rest);
      assert whole + chunk == front + (rest + chunk);
      EncodeFront(whole + chunk, front, rest + chunk);
    }
  }

  lemma WordDigits(v0: nat, v1: nat, v2: nat, v3: nat, n: nat)
    requires v0 < 64 && v1 < 64 && v2 < 64 && v3 < 64
    requires n == v0 * 262144 + v1 * 4096 + v2 * 64 + v3
    ensures n / 262144 % 64 == v0 && n / 4096 % 64 == v1 && n / 64 % 64 == v2 && n % 64 == v3
  {
    Digit(v0 * 4096 + v1 * 64 + v2, v3, n);
    Digit(v0 * 64 + v1, v2, v0 * 4096 + v1 * 64 + v2);
    Digit(v0, v1, v0 * 64 + v1);
    assert n / 4096 == n / 64 / 64;
    assert n / 262144 == n / 64 / 64 / 64;
  }

  lemma Digit(high: nat, low: nat, n: nat)
    requires low < 64 && n == high * 64 + low
    ensures n / 64 == high && n % 64 == low
  {
  }

  lemma WordOfBytes(b0: byte, b1: byte, b2: byte, n: nat)
    requires n == b0 as int * 65536 + b1 as int * 256 + b2 as int
    ensures n == V0(b0) * 262144 + V1(b0, b1) * 4096 + V2(b1, b2) * 64 + V3(b2)
  {
  }

  /** Shifting and masking the 24-bit word the source builds yields the four six-bit values. */
  lemma WordSextets(b0: byte, b1: byte, b2: byte, n: nat)
    requires n == b0 as int * 65536 + b1 as int * 256 + b2 as int
    ensures n / 262144 % 64 == V0(b0) && n / 4096 % 64 == V1(b0, b1)
    ensures n / 64 % 64 == V2(b1, b2) && n % 64 == V3(b2)
  {
    WordOfBytes(b0, b1, b2, n);
    WordDigits(V0(b0), V1(b0, b1), V2(b1, b2), V3(b2), n);
  }

  /** One turn of the source's loop: build the word, shift, mask, look up, pad. */
  method EncodeChunk(chunk: seq<byte>) returns (g: string)
    requires 1 <= |chunk| <= 3
    ensures g == Group(chunk)
  {
    var b0: byte := chunk[0];
    var b1: byte := if |chunk| > 1 then chunk[1] else 0;
    var b2: byte := if |chunk| > 2 then chunk[2] else 0;
    var n: nat := b0 as int * 65536 + b1 as int * 256 + b2 as int;
    WordSextets(b0, b1, b2, n);
    g := [Symbol(n / 262144 % 64), Symbol(n / 4096 % 64)];
    g := g + [if |chunk| > 1 then Symbol(n / 64 % 64) else '='];
    g := g + [if |chunk| > 2 then Symbol(n % 64) else '='];
  }

  /** `base64_encode`, chunk by chunk. */
  method Base64Encode(input: seq<byte>) returns (out: string)
    ensures out == Encode(input)
  {
    out := [];
    var i := 0;
    ghost var m := 0;
    while i < |input|
      invariant i <= |input| && (i == 3 * m || i == |input|)
      invariant out == Encode(input[..i])
    {
      var j := if i + 3 <= |input| then i + 3 else |input|;
      EncodeSnoc(input[..i], m, input[i..j]);
      assert input[..j] == input[..i] + input[i..j];
      var g := EncodeChunk(input[i..j]);
      out := out + g;
      i, m := j, m + 1;
    }
    assert input[..|input|] == input;
  }

  // ----- Decoding (section 4 of RFC 4648, canonical: pad bits are zero)

  /** The bytes of one four-character group; padding may appear only in the last group. */
  function DecodeGroup(g: string, last: bool): Option<seq<byte>>
    requires |g| == 4
  {
    var v0, v1, v2, v3 := Value(g[0]), Value(g[1]), Value(g[2]), Value(g[3]);
    if v0.None? || v1.None? then None
    else if g[2] == '=' && g[3] == '=' then
      if last && v1.value % 16 == 0 then Some([Top(v0.value, v1.value)]) else None
    else if v2.None? then None
    else if g[3] == '=' then
      if last && v2.value % 4 == 0 then Some([Top(v0.value, v1.value), Mid(v1.value, v2.value)]) else None
    else if v3.None? then None
    else Some([Top(v0.value, v1.value), Mid(v1.value, v2.value), Low(v2.value, v3.value)])
  }

  function Top(v0: nat, v1: nat): byte
    requires v0 < 64 && v1 < 64
  {
    v0 * 4 + v1 / 16
  }

  function Mid(v1: nat, v2: nat): byte
    requires v1 < 64 && v2 < 64
  {
    v1 % 16 * 16 + v2 / 4
  }

  function Low(v2: nat, v3: nat): byte
    requires v2 < 64 && v3 < 64
  {
    v2 % 4 * 64 + v3
  }

  function Decode(s: string): Option<seq<byte>> {
    if |s| == 0 then Some([])
    else if |s| < 4 then None
    else
      var head := DecodeGroup(s[..4], |s| == 4);
      var tail := Decode(s[4..]);
      if head.None? || tail.None? then None else Some(head.value + tail.value)
  }

  lemma BytesOfSextets(b0: byte, b1: byte, b2: byte)
    ensures Top(V0(b0), V1(b0, b1)) == b0
    ensures Mid(V1(b0, b1), V2(b1, b2)) == b1
    ensures Low(V2(b1, b2), V3(b2)) == b2
  {
  }

  lemma SextetsOfBytes(v0: nat, v1: nat, v2: nat, v3: nat)
    requires v0 < 64 && v1 < 64 && v2 < 64 && v3 < 64
    ensures V0(Top(v0, v1)) == v0
    ensures V1(Top(v0, v1), Mid(v1, v2)) == v1
    ensures V2(Mid(v1, v2), Low(v2, v3)) == v2
    ensures V3(Low(v2, v3)) == v3
  {
  }

  lemma PadBits(b0: byte, b1: byte)
    ensures V1(b0, 0) % 16 == 0 && V2(b1, 0) % 4 == 0
  {
  }

  lemma ThreeRoundTrip(b0: byte, b1: byte, b2: byte, last: bool)
    ensures DecodeGroup([Symbol(V0(b0)), Symbol(V1(b0, b1)), Symbol(V2(b1, b2)), Symbol(V3(b2))], last)
            == Some([b0, b1, b2])
  {
    SymbolValue(V0(b0));
    SymbolValue(V1(b0, b1));
    SymbolValue(V2(b1, b2));
    SymbolValue(V3(b2));
    BytesOfSextets(b0, b1, b2);
  }

  lemma TwoRoundTrip(b0: byte, b1: byte)
    ensures DecodeGroup([Symbol(V0(b0)), Symbol(V1(b0, b1)), Symbol(V2(b1, 0)), '='], true) == Some([b0, b1])
  {
    SymbolValue(V0(b0));
    SymbolValue(V1(b0, b1));
    SymbolValue(V2(b1, 0));
    BytesOfSextets(b0, b1, 0);
    PadBits(b0, b1);
  }

  lemma OneRoundTrip(b0: byte)
    ensures DecodeGroup([Symbol(V0(b0)), Symbol(V1(b0, 0)), '=', '='], true) == Some([b0])
  {
    SymbolValue(V0(b0));
    SymbolValue(V1(b0, 0));
    TopByte(b0);
  }

  lemma TopByte(b0: byte)
    ensures Top(V0(b0), V1(b0, 0)) == b0 && V1(b0, 0) % 16 == 0
  {
  }

  lemma GroupRoundTrip(chunk: seq<byte>, last: bool)
    requires 1 <= |chunk| <= 3 && (last || |chunk| == 3)
    ensures DecodeGroup(Group(chunk), last) == Some(chunk)
  {
    if |chunk| == 1 {
      OneRoundTrip(chunk[0]);
      assert chunk == [chunk[0]];
    } else if |chunk| == 2 {
      TwoRoundTrip(chunk[0], chunk[1]);
      assert chunk == [chunk[0], chunk[1]];
    } else {
      ThreeRoundTrip(chunk[0], chunk[1], chunk[2], last);
      assert chunk == [chunk[0], chunk[1], chunk[2]];
    }
  }

  lemma GroupOfThree(v0: nat, v1: nat, v2: nat, v3: nat)
    requires v0 < 64 && v1 < 64 && v2 < 64 && v3 < 64
    ensures Group([Top(v0, v1), Mid(v1, v2), Low(v2, v3)]) == [Symbol(v0), Symbol(v1), Symbol(v2), Symbol(v3)]
  {
    SextetsOfBytes(v0, v1, v2, v3);
  }

  lemma GroupOfTwo(v0: nat, v1: nat, v2: nat)
    requires v0 < 64 && v1 < 64 && v2 < 64 && v2 % 4 == 0
    ensures Group([Top(v0, v1), Mid(v1, v2)]) == [Symbol(v0), Symbol(v1), Symbol(v2), '=']
  {
    SextetsOfBytes(v0, v1, v2, 0);
    assert Low(v2, 0) == 0;
  }

  lemma GroupOfOne(v0: nat, v1: nat)
    requires v0 < 64 && v1 < 64 && v1 % 16 == 0
    ensures Group([Top(v0, v1)]) == [Symbol(v0), Symbol(v1), '=', '=']
  {
  }

  lemma GroupCanonical(g: string, last: bool)
    requires |g| == 4 && DecodeGroup(g, last).Some?
    ensures var chunk := DecodeGroup(g, last).value;
      1 <= |chunk| <= 3 && (last || |chunk| == 3) && Group(chunk) == g
  {
    var chunk := DecodeGroup(g, last).value;
    ValueSymbol(g[0]);
    ValueSymbol(g[1]);
    var v0, v1 := Value(g[0]).value, Value(g[1]).value;
    if |chunk| == 1 {
      GroupOfOne(v0, v1);
    } else {
      ValueSymbol(g[2]);
      var v2 := Value(g[2]).value;
      if |chunk| == 2 {
        GroupOfTwo(v0, v1, v2);
      } else {
        ValueSymbol(g[3]);
        GroupOfThree(v0, v1, v2, Value(g[3]).value);
      }
    }
    assert g == [g[0], g[1], g[2], g[3]];
  }

  /** Decoding undoes encoding, for every byte string. */
  lemma {:induction false} RoundTrip(input: seq<byte>)
    ensures Decode(Encode(input)) == Some(input)
    decreases |input|
  {
    if |input| > 3 {
      GroupRoundTrip(input[..3], false);
      RoundTrip(input[3..]);
      EncodeLength(input[3..]);
      var e := Encode(input);
      assert e[..4] == Group(input[..3]) && e[4..] == Encode(input[3..]);
      assert input[..3] + input[3..] == input;
    } else if |input| > 0 {
      GroupRoundTrip(input, true);
      var e := Encode(input);
      assert e[..4] == e && e[4..] == [];
      assert Decode(e) == Some(input + []);
      assert input + [] == input;
    }
  }

  /** Only the encoder's own output decodes: decoding accepts nothing but canonical Base64. */
  lemma {:induction false} Canonical(s: string)
    requires Decode(s).Some?
    ensures Encode(Decode(s).value) == s
    decreases |s|
  {
    if s != [] {
      GroupCanonical(s[..4], |s| == 4);
      Canonical(s[4..]);
      var chunk, rest := DecodeGroup(s[..4], |s| == 4).value, Decode(s[4..]).value;
      assert s == s[..4] + s[4..];
      if |s| > 4 {
        assert rest != [];
        assert (chunk + rest)[..3] == chunk && (chunk + rest)[3..] == rest;
      } else {
        assert chunk + rest == chunk;
      }
    }
  }

  /** The number of chunks of three. */
  function Chunks(n: nat): nat { if n == 0 then 0 else if n <= 3 then 1 else 1 + Chunks(n - 3) }

  lemma {:induction false} ChunksRoundUp(n: nat)
    ensures Chunks(n) == (n + 2) / 3
  {
    if n > 3 {
      ChunksRoundUp(n - 3);
    }
  }

  lemma {:induction false} EncodeChunkCount(input: seq<byte>)
    ensures |Encode(input)| == 4 * Chunks(|input|)
    decreases |input|
  {
    if |input| > 3 {
      EncodeChunkCount(input[3..]);
    }
  }

  /** The output length is four characters for every three bytes begun. */
  lemma EncodeLength(input: seq<byte>)
    ensures |Encode(input)| == 4 * ((|input| + 2) / 3)
  {
    EncodeChunkCount(input);
    ChunksRoundUp(|input|);
  }

  // ----- Constant-time comparison

  /** Bitwise exclusive-or of the low `bits` bits. */
  function Xor(x: nat, y: nat, bits: nat): nat {
    if bits == 0 then 0 else 2 * Xor(x / 2, y / 2, bits - 1) + (x % 2 + y % 2) % 2
  }

  /** Bitwise or of the low `bits` bits. */
  function Or(x: nat, y: nat, bits: nat): nat {
    if bits == 0 then 0 else 2 * Or(x / 2, y / 2, bits - 1) + (if x % 2 + y % 2 > 0 then 1 else 0)
  }

  lemma {:induction false} XorIsZero(x: nat, y: nat, bits: nat)
    requires x < Pow2(bits) && y < Pow2(bits)
    ensures Xor(x, y, bits) < Pow2(bits) && (Xor(x, y, bits) == 0 <==> x == y)
    decreases bits
  {
    if bits > 0 {
      XorIsZero(x / 2, y / 2, bits - 1);
    }
  }

  lemma {:induction false} OrIsZero(x: nat, y: nat, bits: nat)
    requires x < Pow2(bits) && y < Pow2(bits)
    ensures Or(x, y, bits) < Pow2(bits) && (Or(x, y, bits) == 0 <==> x == 0 && y == 0)
    decreases bits
  {
    if bits > 0 {
      OrIsZero(x / 2, y / 2, bits - 1);
    }
  }

  /** One turn of the comparison loop: a difference, once seen, stays. */
  function Accumulate(diff: byte, x: byte, y: byte): (d: byte)
    ensures d == 0 <==> diff == 0 && x == y
  {
    PowEight();
    XorIsZero(x, y, 8);
    OrIsZero(diff, Xor(x, y, 8), 8);
    Or(diff, Xor(x, y, 8), 8)
  }

  lemma PowEight()
    ensures Pow2(8) == 256
  {
    assert Pow2(4) == 16;
  }

  /** `constant_time_eq`: accumulating the differences of all positions decides equality. */
  method ConstantTimeEq(a: seq<byte>, b: seq<byte>) returns (eq: bool)
    ensures eq <==> a == b
  {
    if |a| != |b| {
      return false;
    }
    var diff: byte := 0;
    for i := 0 to |a|
      invariant diff == 0 <==> forall k :: 0 <= k < i ==> a[k] == b[k]
    {
      diff := Accumulate(diff, a[i], b[i]);
    }
    return diff == 0;
  }
}
