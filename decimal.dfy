/** Decimal conversion between strings and 64-bit integers, as Go's
    `strconv.Atoi` parses them and as `%d` formats them. */
module Decimal {
  import opened Values

  const MinInt64: int := -0x8000_0000_0000_0000
  const MaxInt64: int := 0x7FFF_FFFF_FFFF_FFFF

  /** One error for both the syntax and the range failure of Atoi. */
  const AtoiError: string := "strconv.Atoi: invalid syntax or value out of range"

  predicate IsDigit(c: char) {
    '0' <= c <= '9'
  }

  predicate AllDigits(s: string) {
    forall i :: 0 <= i < |s| ==> IsDigit(s[i])
  }

  function DigitValue(c: char): (d: nat)
    requires IsDigit(c)
    ensures d < 10
  {
    (c as int) - ('0' as int)
  }

  function DigitChar(d: nat): (c: char)
    requires d < 10
    ensures IsDigit(c) && DigitValue(c) == d
  {
    (('0' as int) + d) as char
  }

  /** The number a string of decimal digits denotes, most significant first. */
  function DigitsValue(s: string): nat
    requires AllDigits(s)
  {
    if s == [] then 0 else DigitsValue(s[..|s| - 1]) * 10 + DigitValue(s[|s| - 1])
  }

  /** The shortest decimal digits of a natural number. */
  function Digits(n: nat): (s: string)
    ensures |s| > 0 && AllDigits(s)
    ensures n >= 10 ==> s[0] != '0'
  {
    if n < 10 then [DigitChar(n)] else Digits(n / 10) + [DigitChar(n % 10)]
  }

  /** `%d` formatting of an integer. */
  function Itoa(n: int): string {
    if n < 0 then "-" + Digits(-n) else Digits(n)
  }

  function Signed(digits: string, negative: bool): int
    requires AllDigits(digits)
  {
    if negative then 0 - DigitsValue(digits) else DigitsValue(digits)
  }

  /** The value of an unsigned digit string, negated when a minus sign
      preceded it; an error when it is empty, holds a non-digit, or does
      not fit in 64 bits. */
  function ParseMagnitude(digits: string, negative: bool): (r: Result<int>)
    ensures r.Ok? <==> digits != [] && AllDigits(digits)
                       && MinInt64 <= Signed(digits, negative) <= MaxInt64
    ensures r.Ok? ==> r.value == Signed(digits, negative)
  {
    if digits == [] || !AllDigits(digits) then Err(AtoiError)
    else
      var v := Signed(digits, negative);
      if MinInt64 <= v <= MaxInt64 then Ok(v) else Err(AtoiError)
  }

  /** strconv.Atoi on a 64-bit platform: an optional sign followed by one
      or more decimal digits, whose value fits in an int64. */
  function Atoi(s: string): (r: Result<int>)
    ensures s == "" ==> r.Err?
    ensures r.Ok? ==> MinInt64 <= r.value <= MaxInt64
    ensures s != "" && s[0] != '-' && s[0] != '+' && !AllDigits(s) ==> r.Err?
  {
    if |s| > 0 && (s[0] == '-' || s[0] == '+') then ParseMagnitude(s[1..], s[0] == '-')
    else ParseMagnitude(s, false)
  }

  /** Reading back the digits of n gives n. */
  lemma {:induction false} DigitsRoundTrip(n: nat)
    ensures DigitsValue(Digits(n)) == n
  {
    if n >= 10 {
      var s := Digits(n);
      assert s[..|s| - 1] == Digits(n / 10);
      DigitsRoundTrip(n / 10);
    }
  }

  /** Atoi parses back every int64 that %d prints. */
  lemma AtoiItoa(n: int)
    requires MinInt64 <= n <= MaxInt64
    ensures Atoi(Itoa(n)) == Ok(n)
  {
    var s := Itoa(n);
    if n < 0 {
      DigitsRoundTrip(-n);
      assert s[0] == '-' && s[1..] == Digits(-n);
      assert Signed(s[1..], true) == n;
    } else {
      DigitsRoundTrip(n);
      assert s == Digits(n) && IsDigit(s[0]);
      assert Signed(s, false) == n;
    }
  }
}
