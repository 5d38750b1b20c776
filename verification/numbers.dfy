/** Decimal parsing and printing of unsigned integers, and the fixed-width
    limits of the Rust integer types the program uses. */
module Numbers {
  import opened Wrappers

  const U8_MAX: nat := 0xFF
  const U16_MAX: nat := 0xFFFF
  const U32_MAX: nat := 0xFFFF_FFFF
  const U64_MAX: nat := 0xFFFF_FFFF_FFFF_FFFF
  /** 2^64: unsigned 64-bit arithmetic wraps modulo this value. */
  const U64_MOD: nat := 0x1_0000_0000_0000_0000

  predicate IsDigit(c: char) {
    '0' <= c <= '9'
  }

  predicate AllDigits(s: string) {
    forall i :: 0 <= i < |s| ==> IsDigit(s[i])
  }

  /** A digit string contains no non-digit character. */
  lemma DigitsExclude(s: string, c: char)
    requires AllDigits(s) && !IsDigit(c)
    ensures c !in s
  {
  }

  function DigitValue(c: char): nat
    requires IsDigit(c)
  {
    c as int - '0' as int
  }

  function DigitChar(d: nat): (c: char)
    requires d < 10
    ensures IsDigit(c) && DigitValue(c) == d
  {
    ('0' as int + d) as char
  }

  /** The number written by a string of decimal digits (most significant first). */
  function DigitsValue(s: string): nat
    requires AllDigits(s)
  {
    if s == [] then 0 else DigitsValue(s[..|s| - 1]) * 10 + DigitValue(s[|s| - 1])
  }

  /** Rust's `str::parse` for an unsigned integer type whose maximum is `max`:
      an optional '+', then at least one ASCII digit, and a value that fits. */
  function ParseUint(s: string, max: nat): (r: Option<nat>)
    ensures r.Some? ==> r.value <= max
    ensures r.Some? ==> s != [] && s != "+"
    ensures r.Some? ==> forall i :: (if s[0] == '+' then 1 else 0) <= i < |s| ==> IsDigit(s[i])
    ensures s != [] && AllDigits(s) ==> (r.Some? <==> DigitsValue(s) <= max)
  {
    var digits := if |s| > 0 && s[0] == '+' then s[1..] else s;
    if digits == [] || !AllDigits(digits) then None
    else if DigitsValue(digits) <= max then Some(DigitsValue(digits))
    else None
  }

  /** Decimal rendering of `n` without leading zeros (Rust `to_string`). */
  function NatToString(n: nat): (s: string)
    ensures |s| >= 1 && AllDigits(s)
  {
    if n < 10 then [DigitChar(n)] else NatToString(n / 10) + [DigitChar(n % 10)]
  }

  lemma {:induction false} NatToStringValue(n: nat)
    ensures DigitsValue(NatToString(n)) == n
  {
    if n >= 10 {
      var s := NatToString(n);
      assert s[..|s| - 1] == NatToString(n / 10);
      NatToStringValue(n / 10);
    }
  }

  /** Printing a number and parsing it back gives the number, whenever it
      fits the target type. */
  lemma ParseUintRoundTrip(n: nat, max: nat)
    requires n <= max
    ensures ParseUint(NatToString(n), max) == Some(n)
  {
    NatToStringValue(n);
  }

  /** A non-empty digit string parses to the number it writes whenever that
      number fits. */
  lemma ParseUintDigits(s: string, max: nat)
    requires |s| > 0 && AllDigits(s) && DigitsValue(s) <= max
    ensures ParseUint(s, max) == Some(DigitsValue(s))
  {
    assert IsDigit(s[0]);
  }

  /** A string containing a non-digit other than a single leading '+' never parses. */
  lemma ParseUintRejectsNonDigit(s: string, max: nat, i: nat)
    requires i < |s| && !IsDigit(s[i]) && !(i == 0 && s[0] == '+')
    ensures ParseUint(s, max).None?
  {
    if |s| > 0 && s[0] == '+' {
      assert !IsDigit(s[1..][i - 1]);
    }
  }

  /** Two decimal digits, zero-padded (`{:02}`). */
  function Pad2(n: nat): (s: string)
    requires n < 100
    ensures |s| == 2 && AllDigits(s) && DigitsValue(s) == n
  {
    var s := [DigitChar(n / 10), DigitChar(n % 10)];
    assert s[..1] == [DigitChar(n / 10)];
    assert s[..1][..0] == [];
    assert DigitsValue(s[..1]) == n / 10;
    s
  }

  /** Two zero-padded digits parse back to their value. */
  lemma Pad2Parses(n: nat, max: nat)
    requires n < 100 && n <= max
    ensures ParseUint(Pad2(n), max) == Some(n)
  {
    ParseUintDigits(Pad2(n), max);
  }
}
