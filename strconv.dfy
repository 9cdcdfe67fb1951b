/**
 * Go's strconv.Atoi and strconv.Itoa on a 64-bit platform, for the decimal
 * strings that the services read from query parameters and route variables.
 */
module Strconv {
  import opened Wrappers

  const MinInt64: int := -0x8000_0000_0000_0000
  const MaxInt64: int :=  0x7FFF_FFFF_FFFF_FFFF

  predicate InInt64(v: int) { MinInt64 <= v <= MaxInt64 }

  predicate IsDigit(c: char) { '0' <= c <= '9' }

  predicate AllDigits(s: string) { forall i :: 0 <= i < |s| ==> IsDigit(s[i]) }

  function DigitValue(c: char): nat
    requires IsDigit(c)
  {
    c as int - '0' as int
  }

  /** The value of a string of decimal digits, most significant first. */
  function DigitsValue(s: string): nat
    requires AllDigits(s)
  {
    if s == [] then 0 else DigitsValue(s[..|s| - 1]) * 10 + DigitValue(s[|s| - 1])
  }

  /**
   * strconv.Atoi: an optional '+' or '-' followed by at least one decimal
   * digit, whose value fits in 64 bits; anything else (the empty string
   * included) is an error, None here.
   */
  function Atoi(s: string): (r: Option<int>)
    ensures r.Some? ==> InInt64(r.value)
    ensures s == "" ==> r.None?
    ensures var signed := |s| > 0 && (s[0] == '+' || s[0] == '-');
            var digits := if signed then s[1..] else s;
            && (r.Some? <==> digits != [] && AllDigits(digits) && InInt64(SignedValue(s, digits)))
            && (r.Some? ==> r.value == SignedValue(s, digits))
  {
    if |s| > 0 && (s[0] == '+' || s[0] == '-') then
      var digits := s[1..];
      if |digits| > 0 && AllDigits(digits) then
        var v: int := if s[0] == '-' then 0 - (DigitsValue(digits) as int) else DigitsValue(digits);
        if InInt64(v) then Some(v) else None
      else None
    else if |s| > 0 && AllDigits(s) && DigitsValue(s) <= MaxInt64 then
      Some(DigitsValue(s))
    else None
  }

  /** The value a run of digits denotes after the sign, if any, that leads s. */
  function SignedValue(s: string, digits: string): int
    requires AllDigits(digits)
  {
    if |s| > 0 && s[0] == '-' then 0 - (DigitsValue(digits) as int) else DigitsValue(digits)
  }

  function DigitChar(d: nat): (c: char)
    requires d < 10
    ensures IsDigit(c) && DigitValue(c) == d
  {
    ('0' as int + d) as char
  }

  /** The decimal digits of a natural number, without leading zeros. */
  function Digits(n: nat): (s: string)
    ensures |s| > 0 && AllDigits(s)
    ensures DigitsValue(s) == n
    decreases n
  {
    var last := DigitChar(n % 10);
    if n < 10 then
      assert [last][..0] == [];
      [last]
    else
      var prefix := Digits(n / 10);
      var s := prefix + [last];
      assert s[..|s| - 1] == prefix;
      s
  }

  /** strconv.Itoa: a minus sign for negative numbers, then the digits. */
  function Itoa(n: int): string
  {
    if n < 0 then "-" + Digits(-n) else Digits(n)
  }

  /** Atoi reads back every 64-bit value Itoa writes. */
  lemma AtoiItoa(n: int)
    requires InInt64(n)
    ensures Atoi(Itoa(n)) == Some(n)
  {
    if n < 0 {
      var s := Itoa(n);
      assert s[1..] == Digits(-n);
    }
  }

  /** Atoi on a non-empty run of digits: its value when that fits in 64 bits. */
  lemma AtoiDigits(s: string)
    requires s != [] && AllDigits(s)
    ensures Atoi(s) == if DigitsValue(s) <= MaxInt64 then Some(DigitsValue(s) as int) else None
  {
    assert IsDigit(s[0]);
  }

  /** Go's int arithmetic on a 64-bit platform: the result reduced into the signed 64-bit range. */
  function Wrap64(x: int): (w: int)
    ensures InInt64(w)
    ensures InInt64(x) ==> w == x
    ensures (w - x) % 0x1_0000_0000_0000_0000 == 0
  {
    (x - MinInt64) % 0x1_0000_0000_0000_0000 + MinInt64
  }
}

