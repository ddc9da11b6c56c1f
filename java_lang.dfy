/** The pieces of `java.lang` that the record framework and the stock logic rely on:
    fixed-width integers with two's-complement wrap-around, `Long.hashCode`,
    `String.hashCode`, `String.compareTo`, `Integer.toString` and `Integer.parseInt`.
    A Dafny `char` stands for one UTF-16 code unit. */
module JavaLang {
  import opened Wrappers

  const TWO_32: int := 0x1_0000_0000
  const TWO_64: int := 0x1_0000_0000_0000_0000

  type Int8 = x: int | -0x80 <= x < 0x80
  type Int16 = x: int | -0x8000 <= x < 0x8000
  type Int32 = x: int | -0x8000_0000 <= x < 0x8000_0000
  type Int64 = x: int | -0x8000_0000_0000_0000 <= x < 0x8000_0000_0000_0000

  /** Narrowing to Java `int`: keep the low 32 bits and read them as two's complement. */
  function Wrap32(x: int): (r: Int32)
    ensures (r - x) % TWO_32 == 0
    ensures -0x8000_0000 <= x < 0x8000_0000 ==> r == x
  {
    var u := x % TWO_32;
    if u < 0x8000_0000 then u else u - TWO_32
  }

  /** Two integers that differ by a multiple of 2^32 narrow to the same `int`. */
  lemma Wrap32Congruent(x: int, y: int)
    requires (x - y) % TWO_32 == 0
    ensures Wrap32(x) == Wrap32(y)
  {
    var k := (x - y) / TWO_32;
    assert x == y + k * TWO_32;
    assert x % TWO_32 == y % TWO_32;
  }

  function Pow2(n: nat): (r: nat)
    ensures r >= 1
  {
    if n == 0 then 1 else 2 * Pow2(n - 1)
  }

  /** Bitwise exclusive or of two `n`-bit unsigned quantities, bit by bit from the lowest. */
  function Xor(a: nat, b: nat, n: nat): (r: nat)
    requires a < Pow2(n) && b < Pow2(n)
    ensures r < Pow2(n)
  {
    if n == 0 then 0
    else (if a % 2 != b % 2 then 1 else 0) + 2 * Xor(a / 2, b / 2, n - 1)
  }

  lemma {:induction false} Pow2Add(a: nat, b: nat)
    ensures Pow2(a + b) == Pow2(a) * Pow2(b)
  {
    if a > 0 { Pow2Add(a - 1, b); }
  }

  lemma Pow2Of32()
    ensures Pow2(32) == TWO_32
  {
    assert Pow2(2) == 4;
    Pow2Add(2, 2);
    Pow2Add(4, 4);
    Pow2Add(8, 8);
    Pow2Add(16, 16);
  }

  /** `Long.hashCode(v)`, i.e. `(int)(v ^ (v >>> 32))`: the exclusive or of the low and the
      high half of the 64-bit two's-complement pattern of `v`, read as an `int`. */
  function LongHash(v: Int64): Int32
  {
    var bits := if v < 0 then v + TWO_64 else v;
    Pow2Of32();
    Wrap32(Xor(bits % TWO_32, bits / TWO_32, 32))
  }

  lemma {:induction false} XorZero(a: nat, n: nat)
    requires a < Pow2(n)
    ensures Xor(a, 0, n) == a
  {
    if n > 0 { XorZero(a / 2, n - 1); }
  }

  lemma {:induction false} XorOnes(a: nat, n: nat)
    requires a < Pow2(n)
    ensures Xor(a, Pow2(n) - 1, n) == Pow2(n) - 1 - a
  {
    if n > 0 {
      assert (Pow2(n) - 1) % 2 == 1 && (Pow2(n) - 1) / 2 == Pow2(n - 1) - 1;
      XorOnes(a / 2, n - 1);
    }
  }

  /** A non-negative long that fits in an `int` hashes to itself. */
  lemma LongHashOfNonNegativeInt(v: Int64)
    requires 0 <= v < 0x8000_0000
    ensures LongHash(v) == v
  {
    Pow2Of32();
    assert v / TWO_32 == 0 && v % TWO_32 == v;
    XorZero(v, 32);
  }

  /** A negative long that fits in an `int` hashes to its bitwise complement `-v - 1`,
      because its high half is all ones. */
  lemma LongHashOfNegativeInt(v: Int64)
    requires -0x8000_0000 <= v < 0
    ensures LongHash(v) == -v - 1
  {
    Pow2Of32();
    var bits := v + TWO_64;
    assert bits / TWO_32 == TWO_32 - 1;
    assert bits % TWO_32 == v + TWO_32;
    XorOnes(v + TWO_32, 32);
  }

  /** `String.hashCode()`: `h = 31 * h + c` over the characters, from 0, in `int` arithmetic. */
  function StringHash(s: string): Int32
    decreases |s|
  {
    if s == [] then 0 else Wrap32(31 * StringHash(s[..|s| - 1]) + s[|s| - 1] as int)
  }

  /** `String.compareTo`: the difference of the first pair of differing characters, or
      else the difference of the lengths. The result is not clamped to -1/0/1. */
  function StringCompare(s: string, t: string): int
  {
    if s == [] || t == [] then |s| - |t|
    else if s[0] != t[0] then s[0] as int - t[0] as int
    else StringCompare(s[1..], t[1..])
  }

  /** Lexicographic order, stated without recursion: a proper prefix comes first, and
      otherwise the first differing character decides. */
  ghost predicate LexLess(s: string, t: string)
  {
    (|s| < |t| && s == t[..|s|])
    || exists k :: 0 <= k < |s| && k < |t| && s[..k] == t[..k] && s[k] < t[k]
  }

  /** `compareTo` is zero exactly on equal strings and negative exactly when the first string
      comes first lexicographically. */
  lemma {:induction false} StringCompareMeaning(s: string, t: string)
    ensures StringCompare(s, t) == 0 <==> s == t
    ensures StringCompare(s, t) < 0 <==> LexLess(s, t)
    decreases |s|
  {
    if s == [] || t == [] {
      if |s| < |t| { assert s == t[..|s|]; }
      if LexLess(s, t) { assert |s| < |t|; }
    } else if s[0] != t[0] {
      if s[0] < t[0] { assert s[..0] == t[..0]; }
      CommonPrefixHeads(s, t);
    } else {
      var s', t' := s[1..], t[1..];
      StringCompareMeaning(s', t');
      if s' == t' { assert s == [s[0]] + s' && t == [t[0]] + t'; }
      if s == t { assert s' == t'; }
      if LexLess(s', t') {
        if |s'| < |t'| && s' == t'[..|s'|] {
          assert s == t[..|s|];
        } else {
          var k :| 0 <= k < |s'| && k < |t'| && s'[..k] == t'[..k] && s'[k] < t'[k];
          assert s[..k + 1] == [s[0]] + s'[..k];
          assert t[..k + 1] == [t[0]] + t'[..k];
          assert s[k + 1] == s'[k] && t[k + 1] == t'[k];
        }
      }
      if LexLess(s, t) {
        if |s| < |t| && s == t[..|s|] {
          assert s' == t'[..|s'|];
        } else {
          var k :| 0 <= k < |s| && k < |t| && s[..k] == t[..k] && s[k] < t[k];
          assert k != 0;
          assert s'[..k - 1] == s[1..k] == t[1..k] == t'[..k - 1];
          assert s'[k - 1] < t'[k - 1];
        }
      }
    }
  }

  lemma CommonPrefixHeads(s: string, t: string)
    requires s != [] && t != []
    ensures |s| <= |t| && s == t[..|s|] ==> s[0] == t[0]
    ensures forall k :: 0 < k <= |s| && k <= |t| && s[..k] == t[..k] ==> s[0] == t[0]
  {
    forall k | 0 < k <= |s| && k <= |t| && s[..k] == t[..k] ensures s[0] == t[0] {
      assert s[..k][0] == s[0] && t[..k][0] == t[0];
    }
    if |s| <= |t| && s == t[..|s|] { assert t[..|s|][0] == t[0]; }
  }

  /** Swapping the operands negates the result exactly. */
  lemma {:induction false} StringCompareAntisymmetric(s: string, t: string)
    ensures StringCompare(t, s) == -StringCompare(s, t)
    decreases |s|
  {
    if s != [] && t != [] && s[0] == t[0] {
      StringCompareAntisymmetric(s[1..], t[1..]);
    }
  }

  /** The order `compareTo` induces is transitive. */
  lemma {:induction false} StringCompareTransitive(s: string, t: string, u: string)
    requires StringCompare(s, t) < 0 && StringCompare(t, u) < 0
    ensures StringCompare(s, u) < 0
    decreases |s|
  {
    if s != [] && t != [] && u != [] && s[0] == t[0] && t[0] == u[0] {
      StringCompareTransitive(s[1..], t[1..], u[1..]);
    }
  }

  function DigitChar(d: int): (c: char)
    requires 0 <= d < 10
    ensures '0' <= c <= '9' && c as int - '0' as int == d
  {
    (d + '0' as int) as char
  }

  /** The decimal digits of a natural number, most significant first, without leading zeros. */
  function Digits(n: nat): (s: string)
    decreases n
  {
    if n < 10 then [DigitChar(n)] else Digits(n / 10) + [DigitChar(n % 10)]
  }

  /** `Integer.toString` / `Long.toString` / `String.valueOf` of an integral value. */
  function IntToString(n: int): string
  {
    if n < 0 then ['-'] + Digits(-n) else Digits(n)
  }

  predicate AllDigits(s: string)
  {
    forall i :: 0 <= i < |s| ==> '0' <= s[i] <= '9'
  }

  /** The value of a string of decimal digits. */
  function DigitsValue(s: string): nat
    requires AllDigits(s)
    decreases |s|
  {
    if s == [] then 0 else 10 * DigitsValue(s[..|s| - 1]) + (s[|s| - 1] as int - '0' as int)
  }

  /** `Integer.parseInt(s)` in radix 10: an optional `-` or `+`, then one or more digits, and
      a value within the `int` range; anything else is a `NumberFormatException` (`None`). */
  function ParseInt(s: string): Option<Int32>
  {
    if s == [] then None
    else
      var signed := s[0] == '-' || s[0] == '+';
      var body := if signed then s[1..] else s;
      if body == [] || !AllDigits(body) then None
      else
        var v: int := if s[0] == '-' then -(DigitsValue(body) as int) else DigitsValue(body);
        if -0x8000_0000 <= v < 0x8000_0000 then Some(v) else None
  }

  lemma {:induction false} DigitsRoundTrip(n: nat)
    ensures |Digits(n)| > 0 && AllDigits(Digits(n)) && '0' <= Digits(n)[0] <= '9'
    ensures DigitsValue(Digits(n)) == n
    decreases n
  {
    if n >= 10 {
      DigitsRoundTrip(n / 10);
      var s := Digits(n);
      assert s[..|s| - 1] == Digits(n / 10);
    }
  }

  /** Every `int` printed by `Integer.toString` is read back by `Integer.parseInt`. */
  lemma IntToStringRoundTrip(n: Int32)
    ensures ParseInt(IntToString(n)) == Some(n)
  {
    if n < 0 {
      DigitsRoundTrip(-(n as int));
      assert IntToString(n)[1..] == Digits(-(n as int));
    } else {
      DigitsRoundTrip(n);
    }
  }

  /** A natural number in decimal, left-padded with zeros to at least `width` digits
      (a `SimpleDateFormat` numeric field of that many pattern letters). */
  function ZeroPad(n: nat, width: nat): string
  {
    var d := Digits(n);
    if |d| >= width then d else seq(width - |d|, _ => '0') + d
  }
}
