/** Fixed-width integers and their decimal rendering, as the operator header
    uses them: `int32_t` device-type codes, `int` dispatch values, 64-bit
    `TIndex` sizes, and `std::ostream << int32_t` in diagnostics. */
module Numbers {

  type int32 = x: int | -0x8000_0000 <= x < 0x8000_0000
  type int64 = x: int | -0x8000_0000_0000_0000 <= x < 0x8000_0000_0000_0000

  const TWO_POW_32: int := 0x1_0000_0000

  /** The implicit `int64_t -> int` conversion: keep the low 32 bits and read
      them as two's complement. */
  function Narrow(v: int64): (r: int32)
    ensures (v - r) % TWO_POW_32 == 0
    ensures -0x8000_0000 <= v < 0x8000_0000 ==> r == v
  {
    (v + 0x8000_0000) % TWO_POW_32 - 0x8000_0000
  }

  predicate IsDigit(c: char) {
    '0' <= c <= '9'
  }

  predicate AllDigits(s: string) {
    forall i :: 0 <= i < |s| ==> IsDigit(s[i])
  }

  function DigitChar(d: nat): (c: char)
    requires d < 10
    ensures IsDigit(c)
  {
    (d + '0' as int) as char
  }

  function DigitValue(c: char): (d: nat)
    requires IsDigit(c)
    ensures d < 10
  {
    c as int - '0' as int
  }

  /** Decimal digits of a natural number, most significant first. */
  function NatToDecimal(n: nat): (s: string)
    ensures |s| >= 1
    ensures AllDigits(s)
    ensures s[0] == '0' <==> n == 0
    decreases n
  {
    if n < 10 then [DigitChar(n)] else NatToDecimal(n / 10) + [DigitChar(n % 10)]
  }

  /** The reading of a digit string: the partner of `NatToDecimal`. */
  function ParseNat(s: string): nat
    requires AllDigits(s)
  {
    if |s| == 0 then 0 else ParseNat(s[..|s| - 1]) * 10 + DigitValue(s[|s| - 1])
  }

  lemma {:induction false} ParseNatToDecimal(n: nat)
    ensures ParseNat(NatToDecimal(n)) == n
    decreases n
  {
    if n >= 10 {
      var s := NatToDecimal(n / 10);
      var t := s + [DigitChar(n % 10)];
      assert t[..|t| - 1] == s;
      ParseNatToDecimal(n / 10);
    }
  }

  /** How `std::ostream << int32_t` renders a value: a minus sign for negative
      values, then the decimal digits of the magnitude without leading zeros. */
  function Decimal(i: int): (s: string)
    ensures |s| >= 1
    ensures s[0] == '-' <==> i < 0
    ensures i >= 0 ==> AllDigits(s)
    ensures i < 0 ==> |s| >= 2 && AllDigits(s[1..])
  {
    if i < 0 then "-" + NatToDecimal(-i) else NatToDecimal(i)
  }

  predicate WellFormedDecimal(s: string) {
    if |s| > 0 && s[0] == '-' then AllDigits(s[1..]) else AllDigits(s)
  }

  function ParseDecimal(s: string): int
    requires WellFormedDecimal(s)
  {
    if |s| > 0 && s[0] == '-' then -(ParseNat(s[1..]) as int) else ParseNat(s)
  }

  /** Reading back a rendered value gives the value: the diagnostic names the
      number unambiguously. */
  lemma ParseDecimalInvertsDecimal(i: int)
    ensures WellFormedDecimal(Decimal(i))
    ensures ParseDecimal(Decimal(i)) == i
  {
    if i < 0 {
      assert Decimal(i)[1..] == NatToDecimal(-i);
      ParseNatToDecimal(-i);
    } else {
      ParseNatToDecimal(i);
    }
  }

  lemma DecimalInjective(i: int, j: int)
    requires Decimal(i) == Decimal(j)
    ensures i == j
  {
    ParseDecimalInvertsDecimal(i);
    ParseDecimalInvertsDecimal(j);
  }
}
