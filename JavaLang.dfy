/**
 * The pieces of java.lang the image loaders rely on: 32-bit int arithmetic,
 * `String.hashCode` as the Java SE API specification defines it,
 * `String.valueOf(int)`, and Java's truncating integer division.
 */
module JavaLang {

  const TWO_31: int := 0x8000_0000
  const TWO_32: int := 0x1_0000_0000

  /** Java's `int`. */
  newtype int32 = x: int | -0x8000_0000 <= x < 0x8000_0000

  /** Java's `char`: one UTF-16 code unit. */
  newtype char16 = x: int | 0 <= x < 0x1_0000

  /** A `java.lang.String` is a sequence of UTF-16 code units. */
  type JavaString = seq<char16>

  /** Two's-complement narrowing of an unbounded integer to an `int`. */
  function ToInt32(x: int): (r: int32)
    ensures (r as int - x) % TWO_32 == 0
  {
    var m := x % TWO_32;
    if m < TWO_31 then m as int32 else (m - TWO_32) as int32
  }

  /** Two integers congruent modulo 2^32 narrow to the same `int`. */
  lemma ToInt32Congruent(x: int, y: int)
    requires (x - y) % 0x1_0000_0000 == 0
    ensures ToInt32(x) == ToInt32(y)
  {
    var k := (x - y) / 0x1_0000_0000;
    assert x == y + k * 0x1_0000_0000;
  }

  /** Congruence modulo 2^32 survives one step `h -> 31 * h + c` of the hash loop. */
  lemma StepCongruent(h: int, p: int, c: int)
    requires (h - p) % 0x1_0000_0000 == 0
    ensures ((31 * h + c) - (31 * p + c)) % 0x1_0000_0000 == 0
  {
    var k := (h - p) / 0x1_0000_0000;
    assert h - p == k * 0x1_0000_0000;
    assert (31 * h + c) - (31 * p + c) == (31 * k) * 0x1_0000_0000;
  }

  function Pow(b: int, e: nat): int
  {
    if e == 0 then 1 else b * Pow(b, e - 1)
  }

  /**
   * The sum s[0]*31^(n-1) + s[1]*31^(n-2) + ... + s[n-1] of the Java SE API
   * specification of `String.hashCode`, before it is reduced to an `int`.
   */
  function PolynomialHash(s: JavaString): int
    decreases |s|
  {
    if s == [] then 0 else s[0] as int * Pow(31, |s| - 1) + PolynomialHash(s[1..])
  }

  /** `String.hashCode`: the polynomial, computed with `int` arithmetic (so wrapped to 32 bits). */
  function HashCode(s: JavaString): int32
  {
    ToInt32(PolynomialHash(s))
  }

  /** Appending a code unit multiplies the exact polynomial by 31 and adds the unit (Horner's rule). */
  lemma {:induction false} PolynomialHashAppend(s: JavaString, c: char16)
    ensures PolynomialHash(s + [c]) == 31 * PolynomialHash(s) + c as int
    decreases |s|
  {
    if s == [] {
      assert [c][1..] == [];
    } else {
      calc {
        PolynomialHash(s + [c]);
        { assert (s + [c])[1..] == s[1..] + [c]; }
        s[0] as int * Pow(31, |s|) + PolynomialHash(s[1..] + [c]);
        { PolynomialHashAppend(s[1..], c); }
        s[0] as int * Pow(31, |s|) + 31 * PolynomialHash(s[1..]) + c as int;
        { assert Pow(31, |s|) == 31 * Pow(31, |s| - 1); }
        31 * (s[0] as int * Pow(31, |s| - 1) + PolynomialHash(s[1..])) + c as int;
      }
    }
  }

  /**
   * The JDK computes the hash with the loop `h = 31 * h + s[i]` in `int`
   * arithmetic, wrapping at every step. This fold is that loop.
   */
  function HashLoop(s: JavaString): int32
    decreases |s|
  {
    if s == [] then 0 else ToInt32(31 * HashLoop(s[..|s| - 1]) as int + s[|s| - 1] as int)
  }

  /** Wrapping at every step of the loop gives the same `int` as wrapping the exact polynomial once. */
  lemma {:induction false} HashLoopIsHashCode(s: JavaString)
    ensures HashLoop(s) == HashCode(s)
    decreases |s|
  {
    if s != [] {
      var p, c := s[..|s| - 1], s[|s| - 1];
      assert s == p + [c];
      HashLoopIsHashCode(p);
      PolynomialHashAppend(p, c);
      var h := HashCode(p);
      StepCongruent(h as int, PolynomialHash(p), c as int);
      ToInt32Congruent(31 * h as int + c as int, PolynomialHash(s));
    }
  }

  /** Two distinct strings with the same hash code: "Aa" and "BB". */
  lemma HashCollision()
    ensures [65 as char16, 97 as char16] != [66 as char16, 66 as char16]
    ensures HashCode([65 as char16, 97 as char16]) == HashCode([66 as char16, 66 as char16]) == 2112
  {
    assert PolynomialHash([65 as char16, 97 as char16]) == 2112;
    assert PolynomialHash([66 as char16, 66 as char16]) == 2112;
  }

  // ---------------------------------------------------------------------------
  // String.valueOf(int)

  function DigitChar(d: int): (c: char)
    requires 0 <= d < 10
  {
    ('0' as int + d) as char
  }

  predicate IsDigit(c: char)
  {
    '0' <= c <= '9'
  }

  /** The decimal digits of a natural number, most significant first, without leading zeros. */
  function NatDigits(n: nat): (r: string)
    ensures |r| > 0
    ensures forall i :: 0 <= i < |r| ==> IsDigit(r[i])
    ensures |r| > 1 ==> r[0] != '0'
    decreases n
  {
    if n < 10 then [DigitChar(n)] else NatDigits(n / 10) + [DigitChar(n % 10)]
  }

  /** `String.valueOf(int)` (equivalently `Integer.toString`): a minus sign for negatives, then the digits. */
  function IntToString(n: int): string
  {
    if n < 0 then "-" + NatDigits(-n) else NatDigits(n)
  }

  /** Reads a string of digits back as a number (`Integer.parseInt` on its own output). */
  function ParseDigits(s: string): int
    decreases |s|
  {
    if s == [] then 0 else 10 * ParseDigits(s[..|s| - 1]) + (s[|s| - 1] as int - '0' as int)
  }

  function ParseInt(s: string): int
  {
    if |s| > 0 && s[0] == '-' then -ParseDigits(s[1..]) else ParseDigits(s)
  }

  lemma {:induction false} ParseNatDigits(n: nat)
    ensures ParseDigits(NatDigits(n)) == n
    decreases n
  {
    if n >= 10 {
      var d := NatDigits(n / 10) + [DigitChar(n % 10)];
      assert d[..|d| - 1] == NatDigits(n / 10);
      ParseNatDigits(n / 10);
    }
  }

  /** `String.valueOf(int)` loses nothing: parsing its output gives the number back. */
  lemma ParseIntToString(n: int)
    ensures ParseInt(IntToString(n)) == n
  {
    if n < 0 {
      ParseNatDigits(-n);
      assert ("-" + NatDigits(-n))[1..] == NatDigits(-n);
    } else {
      ParseNatDigits(n);
      assert IsDigit(NatDigits(n)[0]);
    }
  }

  /** Two `int`s have the same decimal form exactly when they are equal. */
  lemma IntToStringInjective(a: int, b: int)
    ensures IntToString(a) == IntToString(b) <==> a == b
  {
    if IntToString(a) == IntToString(b) {
      ParseIntToString(a);
      ParseIntToString(b);
    }
  }

  // ---------------------------------------------------------------------------
  // Java's integer division

  /** Java's `a / b` for a positive divisor: the quotient truncated toward zero. */
  function Quot(a: int, b: int): int
    requires b > 0
  {
    if a >= 0 then a / b else -((-a) / b)
  }
}
