/** Fixed-width integers, Rust's decimal `Display` of them and `from_str` parsing in radix 10. */
module Ints {
  import opened Common

  const I32_MIN: int := -0x8000_0000
  const I32_MAX: int := 0x7FFF_FFFF
  const U32_MAX: int := 0xFFFF_FFFF
  const U64_MAX: int := 0xFFFF_FFFF_FFFF_FFFF

  type i32 = x: int | I32_MIN <= x <= I32_MAX
  type u32 = x: int | 0 <= x <= U32_MAX
  type u64 = x: int | 0 <= x <= U64_MAX

  predicate IsAsciiDigit(c: char) {
    '0' <= c <= '9'
  }

  predicate AllAsciiDigits(s: string) {
    forall i :: 0 <= i < |s| ==> IsAsciiDigit(s[i])
  }

  /** The number a string of ASCII digits denotes. */
  function DigitsValue(s: string): nat
    requires AllAsciiDigits(s)
  {
    if s == [] then 0 else 10 * DigitsValue(s[..|s| - 1]) + (s[|s| - 1] as int - '0' as int)
  }

  function DigitChar(d: nat): (c: char)
    requires d < 10
    ensures IsAsciiDigit(c) && c as int - '0' as int == d
  {
    ('0' as int + d) as char
  }

  /** Decimal text of a natural number as `Display` writes it: digits only, no leading zero. */
  function NatToString(n: nat): (r: string)
    ensures r != [] && AllAsciiDigits(r)
    ensures DigitsValue(r) == n
    ensures r[0] == '0' ==> r == "0"
  {
    if n < 10 then [DigitChar(n)]
    else
      var r := NatToString(n / 10) + [DigitChar(n % 10)];
      assert r[..|r| - 1] == NatToString(n / 10);
      r
  }

  /** Decimal text of an integer as `Display` writes it: a `-` before negative values. */
  function IntToString(i: int): (r: string)
    ensures r != []
    ensures forall k :: 0 <= k < |r| ==> IsAsciiDigit(r[k]) || (k == 0 && r[k] == '-')
    ensures i >= 0 ==> r == NatToString(i)
    ensures i < 0 ==> r == "-" + NatToString(-i)
  {
    if i < 0 then "-" + NatToString(-i) else NatToString(i)
  }

  /** `from_str` of a Rust integer type of range `lo..=hi` in radix 10: an optional `+`
      (or `-` when the type is signed), then at least one ASCII digit, then a range check.
      All the error kinds of `ParseIntError` are collapsed into `None`. */
  function ParseInteger(s: string, signed: bool, lo: int, hi: int): (r: Option<int>)
    ensures r.Some? ==> lo <= r.value <= hi
    ensures r.Some? ==> s != [] && AllAsciiDigits(s[1..])
                        && (IsAsciiDigit(s[0]) || s[0] == '+' || (signed && s[0] == '-'))
    ensures s != [] && AllAsciiDigits(s) && lo <= DigitsValue(s) <= hi ==> r == Some(DigitsValue(s))
  {
    if s == [] then None
    else
      var negative := signed && s[0] == '-';
      var digits := if s[0] == '+' || negative then s[1..] else s;
      if digits == [] || !AllAsciiDigits(digits) then None
      else
        var v: int := if negative then 0 - DigitsValue(digits) as int else DigitsValue(digits);
        if lo <= v <= hi then Some(v) else None
  }

  function ParseI32(s: string): (r: Option<i32>)
  {
    match ParseInteger(s, true, I32_MIN, I32_MAX)
    case Some(v) => Some(v)
    case None => None
  }

  function ParseU32(s: string): (r: Option<u32>)
  {
    match ParseInteger(s, false, 0, U32_MAX)
    case Some(v) => Some(v)
    case None => None
  }

  function ParseU64(s: string): (r: Option<u64>)
  {
    match ParseInteger(s, false, 0, U64_MAX)
    case Some(v) => Some(v)
    case None => None
  }

  /** Parsing the text `Display` writes gives the value back, for every value of the type. */
  lemma ParseOfDisplay(v: int, signed: bool, lo: int, hi: int)
    requires lo <= v <= hi && (v < 0 ==> signed)
    ensures ParseInteger(IntToString(v), signed, lo, hi) == Some(v)
  {
    if v < 0 {
      assert IntToString(v)[1..] == NatToString(-v);
    }
  }

  /** The decimal text of a value above the range does not parse. */
  lemma ParseOfLargeDisplay(v: nat, signed: bool, lo: int, hi: int)
    requires v > hi
    ensures ParseInteger(NatToString(v), signed, lo, hi) == None
  {
    assert IsAsciiDigit(NatToString(v)[0]);
  }

  lemma ParseI32OfDisplay(v: i32)
    ensures ParseI32(IntToString(v)) == Some(v)
  {
    ParseOfDisplay(v, true, I32_MIN, I32_MAX);
  }

  lemma ParseU32OfDisplay(v: u32)
    ensures ParseU32(NatToString(v)) == Some(v)
  {
    ParseOfDisplay(v, false, 0, U32_MAX);
  }

  lemma ParseU64OfDisplay(v: u64)
    ensures ParseU64(NatToString(v)) == Some(v)
  {
    ParseOfDisplay(v, false, 0, U64_MAX);
  }

  /** Distinct values have distinct decimal texts. */
  lemma NatToStringInjective(a: nat, b: nat)
    requires NatToString(a) == NatToString(b)
    ensures a == b
  {
    assert DigitsValue(NatToString(a)) == a;
  }

  /** Rust's `/` on integers: the quotient truncated toward zero. */
  function TruncDiv(a: int, b: int): (q: int)
    requires b > 0
  {
    if a >= 0 then a / b else -((-a) / b)
  }

  /** Rust's `%` on integers: the remainder takes the sign of the dividend. */
  function TruncRem(a: int, b: int): (r: int)
    requires b > 0
    ensures b * TruncDiv(a, b) + r == a
    ensures -b < r < b
    ensures a >= 0 ==> r >= 0
    ensures a <= 0 ==> r <= 0
  {
    if a >= 0 then a % b else -((-a) % b)
  }
}
