/**
 * Integer widths and numerals shared by the host and the firmware models:
 * the fixed-width C integer types, digit values as strtoul reads them, and
 * the decimal rendering used by Python's f"{n}", printf's %lu and %u and
 * Arduino's Serial.print.
 */
module Numerals {

  /** C `unsigned long` on the ESP32 targets is 32 bits wide. */
  const ULONG_MAX: nat := 0xFFFF_FFFF

  type U8 = x: int | 0 <= x < 0x100
  type U32 = x: int | 0 <= x < 0x1_0000_0000

  predicate IsDecDigit(c: char) {
    '0' <= c <= '9'
  }

  /** The value of an alphanumeric character read as a digit; 36 for anything else. */
  function DigitVal(c: char): (v: nat)
    ensures v < 10 <==> IsDecDigit(c)
    ensures v <= 36
  {
    if '0' <= c <= '9' then c as int - '0' as int
    else if 'a' <= c <= 'z' then c as int - 'a' as int + 10
    else if 'A' <= c <= 'Z' then c as int - 'A' as int + 10
    else 36
  }

  predicate IsDigitIn(c: char, base: nat) {
    DigitVal(c) < base
  }

  predicate AllDigitsIn(s: string, base: nat) {
    forall i | 0 <= i < |s| :: IsDigitIn(s[i], base)
  }

  /** The number a string of digits denotes in the given base (most significant first). */
  function ValueIn(s: string, base: nat): nat {
    if s == [] then 0 else ValueIn(s[..|s| - 1], base) * base + DigitVal(s[|s| - 1])
  }

  /** Index just past the run of base digits that starts at i. */
  function DigitsEnd(s: string, i: nat, base: nat): (j: nat)
    requires i <= |s|
    ensures i <= j <= |s|
    decreases |s| - i
  {
    if i < |s| && IsDigitIn(s[i], base) then DigitsEnd(s, i + 1, base) else i
  }

  /** DigitsEnd stops at the first character that is not a digit. */
  lemma DigitsEndRun(s: string, i: nat, base: nat)
    requires i <= |s|
    ensures forall k | i <= k < DigitsEnd(s, i, base) :: IsDigitIn(s[k], base)
    ensures DigitsEnd(s, i, base) == |s| || !IsDigitIn(s[DigitsEnd(s, i, base)], base)
    decreases |s| - i
  {
    if i < |s| && IsDigitIn(s[i], base) {
      DigitsEndRun(s, i + 1, base);
    }
  }

  lemma DigitsEndIs(s: string, i: nat, base: nat, j: nat)
    requires i <= j <= |s|
    requires forall k | i <= k < j :: IsDigitIn(s[k], base)
    requires j == |s| || !IsDigitIn(s[j], base)
    ensures DigitsEnd(s, i, base) == j
    decreases j - i
  {
    if i < j {
      DigitsEndIs(s, i + 1, base, j);
    }
  }

  function DigitChar(d: nat): (c: char)
    requires d < 10
    ensures IsDecDigit(c) && DigitVal(c) == d
  {
    ('0' as int + d) as char
  }

  /** Decimal rendering of a natural number, without sign or padding. */
  function Dec(n: nat): (s: string)
    ensures |s| >= 1 && AllDigitsIn(s, 10) && ValueIn(s, 10) == n
    ensures s[0] == '0' <==> n == 0
  {
    if n < 10 then [DigitChar(n)] else Dec(n / 10) + [DigitChar(n % 10)]
  }

  function Pow10(k: nat): (p: nat)
    ensures p >= 1
  {
    if k == 0 then 1 else 10 * Pow10(k - 1)
  }

  /** A number below 10^k needs at most k decimal digits. */
  lemma {:induction false} DecLength(n: nat, k: nat)
    requires 1 <= k && n < Pow10(k)
    ensures |Dec(n)| <= k
  {
    if n >= 10 {
      assert k >= 2;
      assert n / 10 < Pow10(k - 1);
      DecLength(n / 10, k - 1);
    }
  }
}
