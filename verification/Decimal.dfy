/** Decimal text of unsigned integers: `Display` and `FromStr` of `u8`, `u16` and `u32`. */
module Decimal {
  import opened Wrappers
  import opened Text

  const U8_MAX := 255
  const U16_MAX := 65535
  const U32_MAX := 0xFFFF_FFFF

  predicate IsDigit(c: char) {
    '0' <= c <= '9'
  }

  predicate AllDigits(s: string) {
    forall i :: 0 <= i < |s| ==> IsDigit(s[i])
  }

  /** `to_string` of an unsigned integer. */
  function ShowNat(n: nat): (s: string)
    ensures s != "" && AllDigits(s)
    ensures |s| > 1 ==> s[0] != '0'
  {
    if n < 10 then [('0' as int + n) as char] else ShowNat(n / 10) + [('0' as int + n % 10) as char]
  }

  function DecValue(s: string): nat
    requires AllDigits(s)
  {
    if s == "" then 0 else 10 * DecValue(s[..|s| - 1]) + (s[|s| - 1] as int - '0' as int)
  }

  /** `parse` into an unsigned type with the given maximum: an optional `+`, then at least one
      digit; leading zeros are allowed and a value above the maximum is an error. */
  function ParseUInt(s: string, max: nat): Option<nat> {
    var digits := if s != "" && s[0] == '+' then s[1..] else s;
    if digits == "" || !AllDigits(digits) || DecValue(digits) > max then None else Some(DecValue(digits))
  }

  lemma {:induction false} DecValueOfShow(n: nat)
    ensures DecValue(ShowNat(n)) == n
  {
    if n < 10 {
    } else {
      DecValueOfShow(n / 10);
      assert ShowNat(n)[..|ShowNat(n)| - 1] == ShowNat(n / 10);
    }
  }

  /** Printing then parsing an in-range number gives it back. */
  lemma ParseOfShow(n: nat, max: nat)
    requires n <= max
    ensures ParseUInt(ShowNat(n), max) == Some(n)
  {
    DecValueOfShow(n);
    assert IsDigit(ShowNat(n)[0]);
  }

  /** Parsing into the wider type and range-checking agrees with parsing into the narrower one. */
  lemma WideParseAgrees(s: string, wide: nat, narrow: nat)
    requires narrow <= wide
    ensures ParseUInt(s, narrow).Some? <==> ParseUInt(s, wide).Some? && ParseUInt(s, wide).value <= narrow
    ensures ParseUInt(s, narrow).Some? ==> ParseUInt(s, narrow) == ParseUInt(s, wide)
  {
  }

  lemma ShowNatClean(n: nat)
    ensures forall c :: !IsDigit(c) ==> Lacks(ShowNat(n), c)
    ensures Trimmed(ShowNat(n))
  {
  }

  /** A bound on the printed length by the value. */
  lemma {:induction false} ShowNatLength(n: nat, digits: nat, bound: nat)
    requires digits > 0 && bound == Power10(digits)
    ensures n < bound <==> |ShowNat(n)| <= digits
    decreases digits
  {
    if n >= 10 && digits > 1 {
      ShowNatLength(n / 10, digits - 1, Power10(digits - 1));
    }
  }

  function Power10(k: nat): (p: nat)
    ensures p > 0
  {
    if k == 0 then 1 else 10 * Power10(k - 1)
  }
}
