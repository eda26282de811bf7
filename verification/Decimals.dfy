/** Decimal printing, and the integer parsing of Rust's standard library. */
module Decimals {
  import opened Wrappers

  predicate IsDigit(c: char) {
    '0' <= c <= '9'
  }

  predicate AllDigits(s: string) {
    forall i :: 0 <= i < |s| ==> IsDigit(s[i])
  }

  function DigitChar(d: nat): char
    requires d < 10
  {
    (d + 48) as char
  }

  function Digits(n: nat): (r: string)
    ensures r != [] && AllDigits(r)
  {
    if n < 10 then [DigitChar(n)] else Digits(n / 10) + [DigitChar(n % 10)]
  }

  function Value(s: string): nat
    requires AllDigits(s)
  {
    if s == [] then 0 else 10 * Value(s[..|s| - 1]) + (s[|s| - 1] as nat - 48)
  }

  lemma {:induction false} ValueOfDigits(n: nat)
    ensures Value(Digits(n)) == n
  {
    if n < 10 {
      assert [DigitChar(n)][..0] == [];
    } else {
      ValueOfDigits(n / 10);
      assert (Digits(n / 10) + [DigitChar(n % 10)])[..|Digits(n / 10)|] == Digits(n / 10);
    }
  }

  /** An unsigned integer below `limit`: an optional plus sign and at least one digit. */
  function ParseUnsigned(s: string, limit: nat): Option<nat> {
    var digits := if s != [] && s[0] == '+' then s[1..] else s;
    if digits != [] && AllDigits(digits) && Value(digits) < limit then Some(Value(digits)) else None
  }

  const I32_MAX := 0x7fff_ffff
  const U32_LIMIT: nat := 0x1_0000_0000
  const U64_LIMIT: nat := 0x1_0000_0000_0000_0000

  /** Values of the source's unsigned integers. */
  type U32 = n: nat | n < 0x1_0000_0000
  type U64 = n: nat | n < 0x1_0000_0000_0000_0000

  /** A sum in saturating arithmetic: cut to the largest number below `limit`. */
  function Saturated(sum: nat, limit: nat): (r: nat)
    requires limit > 0
    ensures r < limit && r <= sum
  {
    if sum < limit then sum else limit - 1
  }

  /** Saturation loses nothing to splitting a sum in two exactly when nothing saturates or one part is nothing. */
  lemma SaturatedSplits(a: nat, b: nat, limit: nat)
    requires limit > 1
    ensures Saturated(a + b, limit) <= Saturated(a, limit) + Saturated(b, limit)
    ensures Saturated(a + b, limit) == Saturated(a, limit) + Saturated(b, limit) <==> a + b < limit || a == 0 || b == 0
  {
  }

  function SaturatingSub(a: nat, b: nat): nat {
    if a < b then 0 else a - b
  }

  function Decimal(n: int): string {
    if n < 0 then "-" + Digits(-n) else Digits(n)
  }

  /** A 32-bit signed integer: an optional sign and at least one digit, rejecting overflow. */
  function ParseI32(s: string): Option<int> {
    if s != [] && s[0] == '-' then
      var digits := s[1..];
      if digits != [] && AllDigits(digits) && Value(digits) <= I32_MAX + 1 then
        var n: int := Value(digits);
        Some(-n)
      else None
    else ParseUnsigned(s, I32_MAX + 1)
  }

  lemma UnsignedRoundTrip(n: nat, limit: nat)
    ensures ParseUnsigned(Digits(n), limit) == if n < limit then Some(n) else None
  {
    ValueOfDigits(n);
    assert IsDigit(Digits(n)[0]);
  }

  lemma SignedRoundTrip(n: int)
    requires -(I32_MAX + 1) <= n <= I32_MAX
    ensures ParseI32(Decimal(n)) == Some(n)
  {
    if n < 0 {
      ValueOfDigits(-n);
      assert Decimal(n)[1..] == Digits(-n);
    } else {
      UnsignedRoundTrip(n, I32_MAX + 1);
      assert IsDigit(Digits(n)[0]);
    }
  }
}
