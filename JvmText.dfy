/**
 * The parts of Kotlin's and Java's `String` behaviour that the library relies on:
 * `compareTo` (lexicographic over UTF-16 code units), `toByteArray()` (UTF-8),
 * `toString()` of integers, `String.format("%0<w>d", n)`, `split(",".toRegex())`,
 * `contains` and `TextUtils.isEmpty`.
 *
 * Text is a Dafny `string`, a sequence of Unicode scalar values; the JVM keeps the
 * same text as UTF-16 code units, and `CodeUnits` gives that encoding.
 */
module JvmText {
  import opened Wrappers

  /** Kotlin `Int` / Java `int`. */
  type Int32 = x: int | -0x8000_0000 <= x < 0x8000_0000

  /** Kotlin `Long` / Java `long`. */
  type Int64 = x: int | -0x8000_0000_0000_0000 <= x < 0x8000_0000_0000_0000

  /** A byte of an encoded string, as an unsigned value. */
  type Byte = x: int | 0 <= x < 0x100

  /** A UTF-16 code unit, Kotlin's `Char`. */
  type CodeUnit = x: int | 0 <= x < 0x1_0000

  // ---------------------------------------------------------------------------
  // UTF-16 and String.compareTo

  /** The UTF-16 encoding of one character: one unit in the BMP, else a surrogate pair. */
  function CharUnits(c: char): (u: seq<CodeUnit>)
    ensures |u| == (if c as int < 0x1_0000 then 1 else 2)
    ensures |u| == 2 <==> 0xD800 <= u[0] < 0xDC00
  {
    var n := c as int;
    if n < 0x1_0000 then [n]
    else [0xD800 + (n - 0x1_0000) / 0x400, 0xDC00 + (n - 0x1_0000) % 0x400]
  }

  /** The UTF-16 code units that hold `s` on the JVM. */
  function CodeUnits(s: string): (u: seq<CodeUnit>)
    ensures |u| >= |s|
  {
    if s == [] then [] else CharUnits(s[0]) + CodeUnits(s[1..])
  }

  /** Kotlin's `s.length`: the number of UTF-16 code units. */
  function Length(s: string): (n: nat)
    ensures n >= |s| && (n == 0 <==> s == [])
  {
    |CodeUnits(s)|
  }

  lemma CharUnitsInjective(c: char, d: char)
    requires CharUnits(c) == CharUnits(d)
    ensures c == d
  {
    var n, m := c as int, d as int;
    if n >= 0x1_0000 {
      assert (n - 0x1_0000) / 0x400 == (m - 0x1_0000) / 0x400;
      assert (n - 0x1_0000) % 0x400 == (m - 0x1_0000) % 0x400;
    }
  }

  /** Distinct strings have distinct UTF-16 encodings. */
  lemma {:induction false} CodeUnitsInjective(a: string, b: string)
    requires CodeUnits(a) == CodeUnits(b)
    ensures a == b
  {
    if a != [] && b != [] {
      var ua, ub := CharUnits(a[0]), CharUnits(b[0]);
      assert CodeUnits(a) == ua + CodeUnits(a[1..]);
      assert CodeUnits(b) == ub + CodeUnits(b[1..]);
      assert CodeUnits(a)[0] == ua[0] && CodeUnits(b)[0] == ub[0];
      assert |ua| == |ub|;
      assert ua == CodeUnits(a)[..|ua|] && ub == CodeUnits(b)[..|ub|];
      CharUnitsInjective(a[0], b[0]);
      assert CodeUnits(a[1..]) == CodeUnits(a)[|ua|..] == CodeUnits(b)[|ub|..] == CodeUnits(b[1..]);
      CodeUnitsInjective(a[1..], b[1..]);
      assert a == [a[0]] + a[1..] && b == [b[0]] + b[1..];
    }
  }

  /**
   * `String.compareTo` on code-unit sequences: the difference of the first
   * differing units, or of the lengths when one is a prefix of the other.
   */
  function CompareUnits(u: seq<CodeUnit>, v: seq<CodeUnit>): int
  {
    if u == [] || v == [] then |u| - |v|
    else if u[0] != v[0] then u[0] - v[0]
    else CompareUnits(u[1..], v[1..])
  }

  /** Kotlin's `a.compareTo(b)` for strings. */
  function CompareTo(a: string, b: string): int
  {
    CompareUnits(CodeUnits(a), CodeUnits(b))
  }

  lemma {:induction false} CompareUnitsZero(u: seq<CodeUnit>, v: seq<CodeUnit>)
    ensures CompareUnits(u, v) == 0 <==> u == v
  {
    if u != [] && v != [] && u[0] == v[0] {
      CompareUnitsZero(u[1..], v[1..]);
      assert u == [u[0]] + u[1..] && v == [v[0]] + v[1..];
    }
  }

  lemma {:induction false} CompareUnitsFlip(u: seq<CodeUnit>, v: seq<CodeUnit>)
    ensures CompareUnits(v, u) == -CompareUnits(u, v)
  {
    if u != [] && v != [] && u[0] == v[0] {
      CompareUnitsFlip(u[1..], v[1..]);
    }
  }

  lemma {:induction false} CompareUnitsTransitive(u: seq<CodeUnit>, v: seq<CodeUnit>, w: seq<CodeUnit>)
    requires CompareUnits(u, v) < 0 && CompareUnits(v, w) < 0
    ensures CompareUnits(u, w) < 0
  {
    if u != [] && v != [] && w != [] && u[0] == v[0] && v[0] == w[0] {
      CompareUnitsTransitive(u[1..], v[1..], w[1..]);
    }
  }

  /** `compareTo` is zero exactly on equal strings. */
  lemma CompareToZero(a: string, b: string)
    ensures CompareTo(a, b) == 0 <==> a == b
  {
    CompareUnitsZero(CodeUnits(a), CodeUnits(b));
    if CodeUnits(a) == CodeUnits(b) {
      CodeUnitsInjective(a, b);
    }
  }

  /** Swapping the operands of `compareTo` negates the result. */
  lemma CompareToFlip(a: string, b: string)
    ensures CompareTo(b, a) == -CompareTo(a, b)
  {
    CompareUnitsFlip(CodeUnits(a), CodeUnits(b));
  }

  /** The strict order `compareTo(a, b) < 0` is transitive. */
  lemma CompareToTransitive(a: string, b: string, c: string)
    requires CompareTo(a, b) < 0 && CompareTo(b, c) < 0
    ensures CompareTo(a, c) < 0
  {
    CompareUnitsTransitive(CodeUnits(a), CodeUnits(b), CodeUnits(c));
  }

  // ---------------------------------------------------------------------------
  // String.toByteArray(): UTF-8, the platform default charset on Android

  /** The UTF-8 bytes of one character (RFC 3629, section 3). */
  function CharUtf8(c: char): (b: seq<Byte>)
    ensures 1 <= |b| <= 4
    ensures c as int < 0x80 <==> b == [c as int]
  {
    var n := c as int;
    if n < 0x80 then [n]
    else if n < 0x800 then [0xC0 + n / 0x40, 0x80 + n % 0x40]
    else if n < 0x1_0000 then [0xE0 + n / 0x1000, 0x80 + (n / 0x40) % 0x40, 0x80 + n % 0x40]
    else [0xF0 + n / 0x4_0000, 0x80 + (n / 0x1000) % 0x40, 0x80 + (n / 0x40) % 0x40, 0x80 + n % 0x40]
  }

  /** `s.toByteArray()`. */
  function Utf8(s: string): seq<Byte>
  {
    if s == [] then [] else CharUtf8(s[0]) + Utf8(s[1..])
  }

  predicate IsAscii(s: string)
  {
    forall i :: 0 <= i < |s| ==> s[i] as int < 0x80
  }

  /** For ASCII text, the bytes are the characters' codes, one per character. */
  lemma {:induction false} Utf8OfAscii(s: string)
    requires IsAscii(s)
    ensures |Utf8(s)| == |s|
    ensures forall i :: 0 <= i < |s| ==> Utf8(s)[i] == s[i] as int
  {
    if s != [] {
      Utf8OfAscii(s[1..]);
      assert Utf8(s) == [s[0] as int] + Utf8(s[1..]);
    }
  }

  // ---------------------------------------------------------------------------
  // Decimal text: Int.toString(), Long.toString() and String.format("%0<w>d", n)

  predicate IsDigit(c: char)
  {
    '0' <= c <= '9'
  }

  predicate AllDigits(s: string)
  {
    forall i :: 0 <= i < |s| ==> IsDigit(s[i])
  }

  function DigitChar(d: int): (c: char)
    requires 0 <= d < 10
    ensures IsDigit(c) && c as int - '0' as int == d
  {
    ('0' as int + d) as char
  }

  /** The shortest decimal digits of `n` ("0" for zero). */
  function Digits(n: nat): (s: string)
    ensures |s| >= 1 && AllDigits(s)
    ensures n > 0 ==> s[0] != '0'
  {
    if n < 10 then [DigitChar(n)] else Digits(n / 10) + [DigitChar(n % 10)]
  }

  /** The number a string of decimal digits denotes. */
  function DecimalValue(s: string): nat
    requires AllDigits(s)
  {
    if s == [] then 0 else DecimalValue(s[..|s| - 1]) * 10 + (s[|s| - 1] as int - '0' as int)
  }

  /** Reading back the digits of `n` gives `n`. */
  lemma {:induction false} DigitsRoundTrip(n: nat)
    ensures DecimalValue(Digits(n)) == n
  {
    if n >= 10 {
      DigitsRoundTrip(n / 10);
      var s := Digits(n);
      assert s[..|s| - 1] == Digits(n / 10);
    }
  }

  /** Kotlin's `a / b` on integers: the quotient rounded toward zero. */
  function TruncatingDiv(a: int, b: int): int
    requires b > 0
  {
    if a >= 0 then a / b else -((-a) / b)
  }

  /** `n.toString()` for an `Int` or a `Long`. */
  function IntText(n: int): string
  {
    if n < 0 then "-" + Digits(-n) else Digits(n)
  }

  function Zeros(k: nat): (z: string)
    ensures |z| == k && AllDigits(z)
  {
    seq(k, _ => '0')
  }

  /** `s` preceded by as many '0's as it takes to reach `width` characters. */
  function PadWithZeros(s: string, width: nat): (r: string)
    ensures |r| == if |s| >= width then |s| else width
  {
    if |s| >= width then s else Zeros(width - |s|) + s
  }

  /** `String.format("%0<width>d", n)`: the sign counts toward the width. */
  function FormatZeroPadded(n: int, width: nat): string
    requires width >= 1
  {
    if n < 0 then "-" + PadWithZeros(Digits(-n), width - 1)
    else PadWithZeros(Digits(n), width)
  }

  /** Leading zeros do not change the value of a digit string. */
  lemma {:induction false} LeadingZerosValue(k: nat, s: string)
    requires AllDigits(s)
    ensures AllDigits(Zeros(k) + s) && DecimalValue(Zeros(k) + s) == DecimalValue(s)
    decreases |s|, k
  {
    var t := Zeros(k) + s;
    if s == [] {
      assert t == Zeros(k);
      if k > 0 {
        assert t[..|t| - 1] == Zeros(k - 1) + [];
        LeadingZerosValue(k - 1, []);
      }
    } else {
      assert t[..|t| - 1] == Zeros(k) + s[..|s| - 1];
      LeadingZerosValue(k, s[..|s| - 1]);
    }
  }

  /**
   * A non-negative number formatted with "%0<width>d" is all digits, at least
   * `width` long, and reads back as the number.
   */
  lemma FormatZeroPaddedRoundTrip(n: nat, width: nat)
    requires width >= 1
    ensures AllDigits(FormatZeroPadded(n, width))
    ensures |FormatZeroPadded(n, width)| == if |Digits(n)| >= width then |Digits(n)| else width
    ensures DecimalValue(FormatZeroPadded(n, width)) == n
  {
    DigitsRoundTrip(n);
    var d := Digits(n);
    if |d| < width {
      LeadingZerosValue(width - |d|, d);
    }
  }

  // ---------------------------------------------------------------------------
  // split(",".toRegex()) and its inverse

  /**
   * Kotlin's `s.split(Regex(sep))` for a one-character separator: every
   * separator cuts, and empty pieces, trailing ones included, are kept.
   */
  function Split(s: string, sep: char): (parts: seq<string>)
    ensures |parts| >= 1
    ensures forall i, j :: 0 <= i < |parts| && 0 <= j < |parts[i]| ==> parts[i][j] != sep
  {
    if s == [] then [[]]
    else
      var rest := Split(s[1..], sep);
      if s[0] == sep then [[]] + rest else [[s[0]] + rest[0]] + rest[1..]
  }

  /** `parts.joinToString(sep)`. */
  function Join(parts: seq<string>, sep: char): string
    requires |parts| >= 1
  {
    if |parts| == 1 then parts[0] else parts[0] + [sep] + Join(parts[1..], sep)
  }

  /** Joining the pieces of a split with the separator gives back the text. */
  lemma {:induction false} SplitJoin(s: string, sep: char)
    ensures Join(Split(s, sep), sep) == s
  {
    if s != [] {
      SplitJoin(s[1..], sep);
      var rest := Split(s[1..], sep);
      if s[0] != sep {
        var parts := Split(s, sep);
        assert parts[0] == [s[0]] + rest[0] && parts[1..] == rest[1..];
        if |rest| > 1 {
          assert Join(rest, sep) == rest[0] + [sep] + Join(rest[1..], sep);
        }
      }
    }
  }

  /** Text without the separator splits into itself alone. */
  lemma {:induction false} SplitWithoutSeparator(s: string, sep: char)
    requires forall i :: 0 <= i < |s| ==> s[i] != sep
    ensures Split(s, sep) == [s]
  {
    if s != [] {
      SplitWithoutSeparator(s[1..], sep);
      assert [s[0]] + s[1..] == s;
    }
  }

  // ---------------------------------------------------------------------------
  // Small predicates

  /** `TextUtils.isEmpty(s)` and Kotlin's `isNullOrEmpty()`: null or of length zero. */
  predicate IsNullOrEmpty(s: Option<string>)
  {
    s.None? || s.value == []
  }

  /** `sub` occurs in `s` starting at index `i`. */
  predicate OccursAt(s: string, sub: string, i: int)
  {
    0 <= i <= |s| - |sub| && s[i..i + |sub|] == sub
  }

  /** `s.contains(sub)`. */
  predicate Contains(s: string, sub: string)
  {
    exists i | 0 <= i <= |s| :: OccursAt(s, sub, i)
  }
}
