/**
 * The "base64" encoding of section 4 of RFC 4648: the standard alphabet of its
 * table 1, '=' padding, no line breaks (Android's `Base64.NO_WRAP`), with the
 * decoding that inverts it.
 */
module Base64 {
  import opened Wrappers
  import opened JvmText

  /** A character of the base64 alphabet (RFC 4648, table 1). */
  predicate IsAlphabet(c: char)
  {
    ('A' <= c <= 'Z') || ('a' <= c <= 'z') || ('0' <= c <= '9') || c == '+' || c == '/'
  }

  /** The value a character of the alphabet encodes. */
  function SextetValue(c: char): (v: int)
    requires IsAlphabet(c)
    ensures 0 <= v < 64
  {
    if 'A' <= c <= 'Z' then c as int - 'A' as int
    else if 'a' <= c <= 'z' then c as int - 'a' as int + 26
    else if '0' <= c <= '9' then c as int - '0' as int + 52
    else if c == '+' then 62
    else 63
  }

  /** The character that encodes a 6-bit value. */
  function Sextet(v: int): (c: char)
    requires 0 <= v < 64
    ensures IsAlphabet(c) && SextetValue(c) == v
  {
    if v < 26 then ('A' as int + v) as char
    else if v < 52 then ('a' as int + (v - 26)) as char
    else if v < 62 then ('0' as int + (v - 52)) as char
    else if v == 62 then '+'
    else '/'
  }

  /** A character that can appear in encoded text: the alphabet or the pad. */
  predicate IsEncodedChar(c: char)
  {
    IsAlphabet(c) || c == '='
  }

  /** Three bytes, read as one 24-bit number, as four characters, most significant first. */
  function EncodeGroup(b0: Byte, b1: Byte, b2: Byte): (s: string)
    ensures |s| == 4 && forall i :: 0 <= i < 4 ==> IsAlphabet(s[i])
  {
    var n: int := (b0 * 0x100 + b1) * 0x100 + b2;
    [Sextet(n / 0x40 / 0x40 / 0x40), Sextet(n / 0x40 / 0x40 % 0x40), Sextet(n / 0x40 % 0x40), Sextet(n % 0x40)]
  }

  /** A final group of one byte: two characters and two '='. */
  function EncodeLastOne(b0: Byte): (s: string)
    ensures |s| == 4 && forall i :: 0 <= i < 4 ==> IsEncodedChar(s[i])
  {
    [Sextet(b0 / 4), Sextet(b0 % 4 * 16), '=', '=']
  }

  /** A final group of two bytes: three characters and one '='. */
  function EncodeLastTwo(b0: Byte, b1: Byte): (s: string)
    ensures |s| == 4 && forall i :: 0 <= i < 4 ==> IsEncodedChar(s[i])
  {
    var n := b0 as int * 0x100 + b1;
    assert n / 0x400 < 0x40;
    [Sextet(n / 0x400), Sextet(n / 0x10 % 0x40), Sextet(n % 0x10 * 4), '=']
  }

  /**
   * `Base64.encodeToString(b, Base64.NO_WRAP)`: groups of three bytes become four
   * characters; a final group of one or two bytes is padded with '='.
   */
  function Encode(b: seq<Byte>): (s: string)
    ensures |s| == (|b| + 2) / 3 * 4
    ensures forall i :: 0 <= i < |s| ==> IsEncodedChar(s[i])
  {
    if |b| == 0 then ""
    else if |b| == 1 then EncodeLastOne(b[0])
    else if |b| == 2 then EncodeLastTwo(b[0], b[1])
    else
      var rest := Encode(b[3..]);
      GroupCount(|b|);
      EncodeGroup(b[0], b[1], b[2]) + rest
  }

  /** One more group of three bytes takes four more characters. */
  lemma GroupCount(n: int)
    requires n >= 3
    ensures (n + 2) / 3 * 4 == 4 + (n - 3 + 2) / 3 * 4
  {
    var q := (n - 1) / 3;
    DivModThree(n - 1, q, (n - 1) % 3);
    DivModThree(n + 2, q + 1, (n - 1) % 3);
  }

  /** Division by three, given the quotient and remainder. */
  lemma DivModThree(n: int, q: int, r: int)
    requires n == q * 3 + r && 0 <= r < 3
    ensures n / 3 == q
  {
  }

  /** Four characters of the alphabet back to three bytes. */
  function DecodeGroup(q: string): (b: seq<Byte>)
    requires |q| == 4 && forall i :: 0 <= i < 4 ==> IsAlphabet(q[i])
    ensures |b| == 3
  {
    var n := ((SextetValue(q[0]) * 0x40 + SextetValue(q[1])) * 0x40 + SextetValue(q[2])) * 0x40
             + SextetValue(q[3]);
    [n / 0x100 / 0x100, n / 0x100 % 0x100, n % 0x100]
  }

  /**
   * The inverse of `Encode`: `None` for text whose length is not a multiple of
   * four, with a character outside the alphabet, or with '=' anywhere but at the
   * end of the last group.
   */
  function Decode(s: string): Option<seq<Byte>>
    decreases |s|
  {
    if s == [] then Some([])
    else if |s| < 4 then None
    else if |s| == 4 && IsAlphabet(s[0]) && IsAlphabet(s[1]) && s[2] == '=' && s[3] == '=' then
      Some([(SextetValue(s[0]) * 0x40 + SextetValue(s[1])) / 0x10])
    else if |s| == 4 && IsAlphabet(s[0]) && IsAlphabet(s[1]) && IsAlphabet(s[2]) && s[3] == '=' then
      Some([(SextetValue(s[0]) * 0x1000 + SextetValue(s[1]) * 0x40 + SextetValue(s[2])) / 0x400,
            (SextetValue(s[0]) * 0x1000 + SextetValue(s[1]) * 0x40 + SextetValue(s[2])) / 0x4 % 0x100])
    else if forall i :: 0 <= i < 4 ==> IsAlphabet(s[i]) then
      match Decode(s[4..])
      case None => None
      case Some(rest) => Some(DecodeGroup(s[..4]) + rest)
    else None
  }

  /** Division with remainder by a constant, given the quotient and remainder. */
  lemma DivMod(n: int, d: int, q: int, r: int)
    requires d == 0x40 || d == 0x100 || d == 0x10 || d == 4 || d == 0x400
    requires n == q * d + r && 0 <= r < d
    ensures n / d == q && n % d == r
  {
  }

  /** The four sextets of a 24-bit number reassemble to it. */
  lemma GroupSextets(n: int)
    requires 0 <= n < 0x100_0000
    ensures ((n / 0x40 / 0x40 / 0x40 * 0x40 + n / 0x40 / 0x40 % 0x40) * 0x40 + n / 0x40 % 0x40) * 0x40 + n % 0x40 == n
    ensures n / 0x40 / 0x40 / 0x40 < 0x40
  {
    var m1 := n / 0x40;
    var m2 := m1 / 0x40;
    assert n == m1 * 0x40 + n % 0x40;
    assert m1 == m2 * 0x40 + m1 % 0x40;
    assert m2 == m2 / 0x40 * 0x40 + m2 % 0x40;
  }

  lemma GroupRoundTrip(b0: Byte, b1: Byte, b2: Byte)
    ensures DecodeGroup(EncodeGroup(b0, b1, b2)) == [b0, b1, b2]
  {
    var n: int := (b0 * 0x100 + b1) * 0x100 + b2;
    GroupSextets(n);
    var q := EncodeGroup(b0, b1, b2);
    assert SextetValue(q[0]) == n / 0x40 / 0x40 / 0x40 && SextetValue(q[1]) == n / 0x40 / 0x40 % 0x40;
    assert SextetValue(q[2]) == n / 0x40 % 0x40 && SextetValue(q[3]) == n % 0x40;
    DivMod(n, 0x100, b0 * 0x100 + b1, b2);
    DivMod(b0 * 0x100 + b1, 0x100, b0, b1);
  }

  lemma OneByteRoundTrip(b0: Byte)
    ensures Decode(Encode([b0])) == Some([b0])
  {
    var s := Encode([b0]);
    var v0, v1 := b0 / 4, b0 % 4 * 16;
    assert SextetValue(s[0]) == v0 && SextetValue(s[1]) == v1;
    DivMod(v0 * 0x40 + v1, 0x10, b0, 0);
  }

  /** The three sextets of a 16-bit number, shifted left by two, reassemble to four times it. */
  lemma TwoByteSextets(n: int)
    requires 0 <= n < 0x10000
    ensures (n / 0x400) * 0x1000 + (n / 0x10 % 0x40) * 0x40 + n % 0x10 * 4 == n * 4
    ensures n / 0x400 < 0x40
  {
    var a, rest := n / 0x400, n % 0x400;
    var c, r := rest / 0x10, rest % 0x10;
    assert n == (a * 0x40 + c) * 0x10 + r;
    DivMod(n, 0x10, a * 0x40 + c, r);
    DivMod(a * 0x40 + c, 0x40, a, c);
  }

  lemma TwoByteRoundTrip(b0: Byte, b1: Byte)
    ensures Decode(Encode([b0, b1])) == Some([b0, b1])
  {
    var s := Encode([b0, b1]);
    var n := b0 as int * 0x100 + b1;
    TwoByteSextets(n);
    var v0, v1, v2 := n / 0x400, n / 0x10 % 0x40, n % 0x10 * 4;
    assert SextetValue(s[0]) == v0 && SextetValue(s[1]) == v1 && SextetValue(s[2]) == v2;
    var m := v0 * 0x1000 + v1 * 0x40 + v2;
    DivMod(m, 4, n, 0);
    DivMod(n, 0x100, b0, b1);
    DivMod(m, 0x400, b0, b1 * 4);
  }

  /** Decoding undoes encoding: base64 loses no information. */
  lemma {:induction false} DecodeEncode(b: seq<Byte>)
    ensures Decode(Encode(b)) == Some(b)
    decreases |b|
  {
    if |b| == 1 {
      assert b == [b[0]];
      OneByteRoundTrip(b[0]);
    } else if |b| == 2 {
      assert b == [b[0], b[1]];
      TwoByteRoundTrip(b[0], b[1]);
    } else if |b| >= 3 {
      DecodeEncode(b[3..]);
      DecodeEncodeLong(b);
    }
  }

  /** The round trip of three or more bytes, given that of all but the first three. */
  lemma DecodeEncodeLong(b: seq<Byte>)
    requires |b| >= 3 && Decode(Encode(b[3..])) == Some(b[3..])
    ensures Decode(Encode(b)) == Some(b)
  {
    var g := EncodeGroup(b[0], b[1], b[2]);
    EncodeLong(b);
    GroupRoundTrip(b[0], b[1], b[2]);
    DecodeFullGroup(g, Encode(b[3..]), b[3..]);
    PrefixAndRest(b);
  }

  /** Three or more bytes encode as their first group, then the rest. */
  lemma EncodeLong(b: seq<Byte>)
    requires |b| >= 3
    ensures Encode(b) == EncodeGroup(b[0], b[1], b[2]) + Encode(b[3..])
  {
  }

  /** A sequence is its first elements followed by the rest. */
  lemma PrefixAndRest(b: seq<Byte>)
    requires 3 <= |b|
    ensures [b[0], b[1], b[2]] + b[3..] == b
  {
    assert b[..3] == [b[0], b[1], b[2]];
    assert b[..3] + b[3..] == b;
  }

  /** A leading group without padding decodes on its own, before the rest. */
  lemma DecodeFullGroup(g: string, t: string, rest: seq<Byte>)
    requires |g| == 4 && forall i :: 0 <= i < 4 ==> IsAlphabet(g[i])
    requires Decode(t) == Some(rest)
    ensures Decode(g + t) == Some(DecodeGroup(g) + rest)
  {
    var s := g + t;
    assert s[..4] == g && s[4..] == t;
    assert forall i :: 0 <= i < 4 ==> s[i] == g[i];
  }

  /** The test vectors of section 10 of RFC 4648, for the ASCII text "foobar". */
  lemma EncodeVectors()
    ensures Encode(Utf8("f")) == "Zg=="
    ensures Encode(Utf8("fo")) == "Zm8="
    ensures Encode(Utf8("foo")) == "Zm9v"
    ensures Encode(Utf8("foobar")) == "Zm9vYmFy"
    ensures Decode("Zm9vYmFy") == Some(Utf8("foobar"))
  {
    AsciiBytes("f", [0x66]);
    AsciiBytes("fo", [0x66, 0x6f]);
    AsciiBytes("foo", [0x66, 0x6f, 0x6f]);
    AsciiBytes("foobar", [0x66, 0x6f, 0x6f, 0x62, 0x61, 0x72]);
    ByteVectors();
    DecodeEncode([0x66, 0x6f, 0x6f, 0x62, 0x61, 0x72]);
  }

  /** The vectors of section 10 of RFC 4648 on their bytes. */
  lemma ByteVectors()
    ensures Encode([0x66]) == "Zg=="
    ensures Encode([0x66, 0x6f]) == "Zm8="
    ensures Encode([0x66, 0x6f, 0x6f]) == "Zm9v"
    ensures Encode([0x66, 0x6f, 0x6f, 0x62, 0x61, 0x72]) == "Zm9vYmFy"
  {
    LastGroupVectors();
    FooGroup();
    BarGroup();
    var foo: seq<Byte> := [0x66, 0x6f, 0x6f];
    var bar: seq<Byte> := [0x62, 0x61, 0x72];
    EncodeLong(foo);
    assert foo[3..] == [];
    EncodeLong(bar);
    assert bar[3..] == [];
    EncodeLong(foo + bar);
    assert (foo + bar)[3..] == bar;
  }

  /** The padded groups of the vectors of section 10 of RFC 4648. */
  lemma LastGroupVectors()
    ensures EncodeLastOne(0x66) == "Zg=="
    ensures EncodeLastTwo(0x66, 0x6f) == "Zm8="
  {
    DivMod(0x66, 4, 25, 2);
    var n := 0x66 * 0x100 + 0x6f;
    DivMod(n, 0x400, 25, 623);
    DivMod(n, 0x10, 1638, 15);
    DivMod(1638, 0x40, 25, 38);
  }

  /** The group "foo" of section 10 of RFC 4648. */
  lemma FooGroup()
    ensures EncodeGroup(0x66, 0x6f, 0x6f) == "Zm9v"
  {
    var n := (0x66 * 0x100 + 0x6f) * 0x100 + 0x6f;
    DivMod(n, 0x40, 104893, 47);
    DivMod(104893, 0x40, 1638, 61);
    DivMod(1638, 0x40, 25, 38);
  }

  /** The group "bar" of section 10 of RFC 4648. */
  lemma BarGroup()
    ensures EncodeGroup(0x62, 0x61, 0x72) == "YmFy"
  {
    var n := (0x62 * 0x100 + 0x61) * 0x100 + 0x72;
    DivMod(n, 0x40, 100741, 50);
    DivMod(100741, 0x40, 1574, 5);
    DivMod(1574, 0x40, 24, 38);
  }

  /** The bytes of an ASCII text are its character codes. */
  lemma AsciiBytes(s: string, b: seq<Byte>)
    requires |s| == |b| && forall i :: 0 <= i < |s| ==> s[i] as int == b[i] && b[i] < 0x80
    ensures Utf8(s) == b
  {
    Utf8OfAscii(s);
  }
}
