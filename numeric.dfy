/**
 * Machine integers of the Rust sources: ranges, release-build wrap-around,
 * the byte codecs of `to_le_bytes`/`to_be_bytes`, and decimal text as
 * written by `format!` and read by `str::parse`.
 */
module Numeric {
  import opened Wrappers

  const U32_LIMIT: int := 0x1_0000_0000
  const U64_LIMIT: int := 0x1_0000_0000_0000_0000
  const I64_MIN: int := -0x8000_0000_0000_0000
  const I64_LIMIT: int := 0x8000_0000_0000_0000

  type byte = x: int | 0 <= x < 256
  type u32 = x: int | 0 <= x < 0x1_0000_0000
  type u64 = x: int | 0 <= x < 0x1_0000_0000_0000_0000
  type i64 = x: int | -0x8000_0000_0000_0000 <= x < 0x8000_0000_0000_0000

  /** `u64::wrapping_add`. */
  function WrappingAdd(a: u64, b: u64): (r: u64)
    ensures a + b < U64_LIMIT ==> r == a + b
    ensures a + b >= U64_LIMIT ==> r == a + b - U64_LIMIT
  {
    (a + b) % U64_LIMIT
  }

  /** An i64 result of release-build arithmetic: the exact value reduced modulo 2^64 into the signed range. */
  function WrapI64(x: int): (r: i64)
    ensures I64_MIN <= x < I64_LIMIT ==> r == x
    ensures (r - x) % U64_LIMIT == 0
  {
    (x - I64_MIN) % U64_LIMIT + I64_MIN
  }

  function Pow256(n: nat): (p: nat)
    ensures p >= 1
  {
    if n == 0 then 1 else 256 * Pow256(n - 1)
  }

  // ---------------------------------------------------------------- little endian

  /** The `n` low bytes of `x`, least significant first. */
  function LeBytes(x: nat, n: nat): (b: seq<byte>)
    requires x < Pow256(n)
    ensures |b| == n
  {
    if n == 0 then [] else [x % 256] + LeBytes(x / 256, n - 1)
  }

  function FromLe(b: seq<byte>): nat
  {
    if b == [] then 0 else b[0] + 256 * FromLe(b[1..])
  }

  lemma {:induction false} FromLeBound(b: seq<byte>)
    ensures FromLe(b) < Pow256(|b|)
  {
    if b != [] {
      FromLeBound(b[1..]);
      assert FromLe(b[1..]) + 1 <= Pow256(|b| - 1);
      assert FromLe(b) <= 255 + 256 * (Pow256(|b| - 1) - 1);
    }
  }

  lemma {:induction false} FromLeOfLe(x: nat, n: nat)
    requires x < Pow256(n)
    ensures FromLe(LeBytes(x, n)) == x
  {
    if n > 0 {
      FromLeOfLe(x / 256, n - 1);
      assert LeBytes(x, n)[1..] == LeBytes(x / 256, n - 1);
    } else {
      assert x == 0;
    }
  }

  lemma {:induction false} LeOfFromLe(b: seq<byte>)
    ensures FromLe(b) < Pow256(|b|) && LeBytes(FromLe(b), |b|) == b
  {
    FromLeBound(b);
    if b != [] {
      LeOfFromLe(b[1..]);
      var x := FromLe(b);
      assert x % 256 == b[0] && x / 256 == FromLe(b[1..]);
    }
  }

  /** `u64::to_le_bytes`. */
  function U64ToLe(x: u64): (b: seq<byte>)
    ensures |b| == 8
  {
    assert Pow256(8) == U64_LIMIT;
    LeBytes(x, 8)
  }

  /** `u64::from_le_bytes` on an 8-byte slice. */
  function U64FromLe(b: seq<byte>): (x: u64)
    requires |b| == 8
    ensures U64ToLe(x) == b
  {
    LeOfFromLe(b);
    assert Pow256(8) == U64_LIMIT;
    FromLe(b)
  }

  lemma U64LeRoundTrip(x: u64)
    ensures U64FromLe(U64ToLe(x)) == x
  {
    assert Pow256(8) == U64_LIMIT;
    FromLeOfLe(x, 8);
  }

  // ---------------------------------------------------------------- big endian

  /** The `n` low bytes of `x`, most significant first. */
  function BeBytes(x: nat, n: nat): (b: seq<byte>)
    requires x < Pow256(n)
    ensures |b| == n
  {
    if n == 0 then [] else BeBytes(x / 256, n - 1) + [x % 256]
  }

  function FromBe(b: seq<byte>): nat
  {
    if b == [] then 0 else 256 * FromBe(b[..|b| - 1]) + b[|b| - 1]
  }

  lemma {:induction false} FromBeOfBe(x: nat, n: nat)
    requires x < Pow256(n)
    ensures FromBe(BeBytes(x, n)) == x
  {
    if n > 0 {
      FromBeOfBe(x / 256, n - 1);
      var b := BeBytes(x, n);
      assert b[..|b| - 1] == BeBytes(x / 256, n - 1);
    } else {
      assert x == 0;
    }
  }

  lemma {:induction false} BeOfFromBe(b: seq<byte>)
    ensures FromBe(b) < Pow256(|b|) && BeBytes(FromBe(b), |b|) == b
  {
    if b != [] {
      var init := b[..|b| - 1];
      BeOfFromBe(init);
      var x := FromBe(b);
      assert x <= 256 * (Pow256(|b| - 1) - 1) + 255;
      assert x % 256 == b[|b| - 1] && x / 256 == FromBe(init);
      assert b == init + [b[|b| - 1]];
    }
  }

  /** `u32::to_be_bytes`. */
  function U32ToBe(x: u32): (b: seq<byte>)
    ensures |b| == 4
  {
    assert Pow256(4) == U32_LIMIT;
    BeBytes(x, 4)
  }

  /** `u32::from_be_bytes` on a 4-byte slice. */
  function U32FromBe(b: seq<byte>): (x: u32)
    requires |b| == 4
    ensures U32ToBe(x) == b
  {
    BeOfFromBe(b);
    assert Pow256(4) == U32_LIMIT;
    FromBe(b)
  }

  lemma U32BeRoundTrip(x: u32)
    ensures U32FromBe(U32ToBe(x)) == x
  {
    assert Pow256(4) == U32_LIMIT;
    FromBeOfBe(x, 4);
  }

  // ---------------------------------------------------------------- decimal text

  function Pow10(n: nat): (p: nat)
    ensures p >= 1
  {
    if n == 0 then 1 else 10 * Pow10(n - 1)
  }

  const TEN_POW_19: int := 10000000000000000000
  const TEN_POW_20: int := 100000000000000000000

  lemma Pow10Values()
    ensures Pow10(19) == TEN_POW_19 && Pow10(20) == TEN_POW_20
  {
    assert Pow10(1) == 10;
    assert Pow10(2) == 100;
    assert Pow10(3) == 1000;
    assert Pow10(4) == 10000;
    assert Pow10(5) == 100000;
    assert Pow10(6) == 1000000;
    assert Pow10(7) == 10000000;
    assert Pow10(8) == 100000000;
    assert Pow10(9) == 1000000000;
    assert Pow10(10) == 10000000000;
    assert Pow10(11) == 100000000000;
    assert Pow10(12) == 1000000000000;
    assert Pow10(13) == 10000000000000;
    assert Pow10(14) == 100000000000000;
    assert Pow10(15) == 1000000000000000;
    assert Pow10(16) == 10000000000000000;
    assert Pow10(17) == 100000000000000000;
    assert Pow10(18) == 1000000000000000000;
    assert Pow10(19) == 10000000000000000000;
    assert Pow10(20) == 100000000000000000000;
  }

  predicate IsDigit(c: char)
  {
    '0' <= c <= '9'
  }

  function DigitChar(d: nat): (c: char)
    requires d < 10
    ensures IsDigit(c) && c as int - '0' as int == d
  {
    ('0' as int + d) as char
  }

  function DigitValue(c: char): nat
    requires IsDigit(c)
  {
    c as int - '0' as int
  }

  /** Value of a string of decimal digits, most significant first. */
  function DigitsValue(s: string): nat
    requires forall i :: 0 <= i < |s| ==> IsDigit(s[i])
  {
    if s == [] then 0 else 10 * DigitsValue(s[..|s| - 1]) + DigitValue(s[|s| - 1])
  }

  /** `x` in exactly `w` digits with leading zeros, the digits of `{:0w$}`. */
  function ZeroPadded(x: nat, w: nat): (s: string)
    requires x < Pow10(w)
    ensures |s| == w
    ensures forall i :: 0 <= i < |s| ==> IsDigit(s[i])
  {
    if w == 0 then [] else ZeroPadded(x / 10, w - 1) + [DigitChar(x % 10)]
  }

  lemma {:induction false} ZeroPaddedValue(x: nat, w: nat)
    requires x < Pow10(w)
    ensures DigitsValue(ZeroPadded(x, w)) == x
  {
    if w == 0 {
      assert x == 0;
    } else {
      ZeroPaddedValue(x / 10, w - 1);
      var s := ZeroPadded(x, w);
      assert s[..|s| - 1] == ZeroPadded(x / 10, w - 1);
    }
  }

  /** `x` in decimal without leading zeros, as `{}` writes a non-negative integer. */
  function Decimal(n: nat): (s: string)
    ensures |s| >= 1
    ensures forall i :: 0 <= i < |s| ==> IsDigit(s[i])
  {
    if n < 10 then [DigitChar(n)] else Decimal(n / 10) + [DigitChar(n % 10)]
  }

  lemma {:induction false} DecimalValue(n: nat)
    ensures DigitsValue(Decimal(n)) == n
  {
    var s := Decimal(n);
    if n < 10 {
      assert s[..|s| - 1] == [];
    } else {
      DecimalValue(n / 10);
      assert s[..|s| - 1] == Decimal(n / 10);
    }
  }

  /** `{}` on a signed integer. */
  function FormatInt(x: int): string
  {
    if x < 0 then "-" + Decimal(-x) else Decimal(x)
  }

  predicate AllDigits(s: string)
  {
    forall i :: 0 <= i < |s| ==> IsDigit(s[i])
  }

  /** The magnitude and sign `from_str_radix` reads: a non-empty digit string after an optional sign. */
  function ParseMagnitude(s: string, signed: bool): (r: Option<(bool, nat)>)
  {
    var (negative, digits) :=
      if |s| >= 1 && (s[0] == '+' || (signed && s[0] == '-')) then (s[0] == '-', s[1..]) else (false, s);
    if digits == [] || !AllDigits(digits) then None else Some((negative, DigitsValue(digits)))
  }

  /** `str::parse::<i64>`. */
  function ParseI64(s: string): (r: Option<i64>)
    ensures r.Some? ==> s != [] && (IsDigit(s[0]) || s[0] == '+' || s[0] == '-')
  {
    match ParseMagnitude(s, true)
    case None => None
    case Some((negative, v)) =>
      var x: int := if negative then 0 - (v as int) else v;
      if I64_MIN <= x < I64_LIMIT then Some(x) else None
  }

  /** `str::parse::<u64>` (and `usize` on a 64-bit target). */
  function ParseU64(s: string): (r: Option<u64>)
    ensures r.Some? ==> s != [] && (IsDigit(s[0]) || s[0] == '+')
  {
    match ParseMagnitude(s, false)
    case None => None
    case Some((_, v)) => if v < U64_LIMIT then Some(v) else None
  }

  /** Parsing what `{}` wrote gives the number back. */
  lemma ParseFormatI64(x: i64)
    ensures ParseI64(FormatInt(x)) == Some(x)
  {
    if x < 0 {
      var m: nat := -(x as int);
      DecimalValue(m);
      assert FormatInt(x)[1..] == Decimal(m);
    } else {
      DecimalValue(x);
    }
  }

  lemma ParseFormatU64(x: u64)
    ensures ParseU64(Decimal(x)) == Some(x)
  {
    DecimalValue(x);
  }
}
