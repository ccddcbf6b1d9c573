/** Decimal rendering and parsing of Go `int` values on a 64-bit platform:
    `fmt`'s `%d` verb (and `strconv.Itoa`) and `strconv.Atoi`. */
module Decimal {
  import opened Common

  const MaxInt64: int := 0x7FFF_FFFF_FFFF_FFFF
  const MinInt64: int := -0x8000_0000_0000_0000

  /** Values a Go `int` (64 bits) can hold. */
  predicate IsInt64(n: int) {
    MinInt64 <= n <= MaxInt64
  }

  predicate IsDigit(c: char) {
    '0' <= c <= '9'
  }

  predicate AllDigits(s: string) {
    forall i :: 0 <= i < |s| ==> IsDigit(s[i])
  }

  function DigitValue(c: char): (d: nat)
    requires IsDigit(c)
    ensures d < 10
  {
    (c as int) - ('0' as int)
  }

  function DigitChar(d: nat): (c: char)
    requires d < 10
    ensures IsDigit(c) && DigitValue(c) == d
  {
    (('0' as int) + d) as char
  }

  /** The number a string of decimal digits denotes, most significant digit first. */
  function DigitsValue(s: string): nat
    requires AllDigits(s)
  {
    if s == [] then 0 else 10 * DigitsValue(s[..|s| - 1]) + DigitValue(s[|s| - 1])
  }

  /** The shortest decimal digit string of `n` ("0" for zero). */
  function NatDigits(n: nat): (s: string)
    ensures AllDigits(s) && 1 <= |s|
    ensures |s| > 1 ==> s[0] != '0'
  {
    if n < 10 then [DigitChar(n)] else NatDigits(n / 10) + [DigitChar(n % 10)]
  }

  /** `fmt.Sprintf("%d", n)`: a minus sign for negative numbers, then the digits. */
  function FormatInt(n: int): (s: string)
    ensures 1 <= |s|
    ensures n >= 0 <==> AllDigits(s)
    ensures n < 0 <==> s[0] == '-'
  {
    if n < 0 then
      var s := "-" + NatDigits(-n);
      assert !IsDigit(s[0]);
      s
    else NatDigits(n)
  }

  /** `strconv.Atoi`: an optional '+' or '-', then at least one ASCII digit (leading
      zeros allowed, no underscores, no blanks); the value must fit the 64-bit `int`,
      otherwise the call reports a range error. Both kinds of error are `None`. */
  function Atoi(s: string): (r: Option<int>)
    ensures r.Some? ==> IsInt64(r.value)
    ensures r.Some? ==> 1 <= |s| && (IsDigit(s[0]) || s[0] == '+' || s[0] == '-')
    ensures r.Some? ==> (r.value < 0 ==> s[0] == '-')
    ensures r.Some? ==>
      var d := if s[0] == '+' || s[0] == '-' then s[1..] else s;
      && 1 <= |d| && AllDigits(d)
      && r.value == (if s[0] == '-' then -(DigitsValue(d) as int) else DigitsValue(d))
  {
    var signed := |s| > 0 && (s[0] == '+' || s[0] == '-');
    var digits := if signed then s[1..] else s;
    if |digits| == 0 || !AllDigits(digits) then None
    else
      var magnitude: int := DigitsValue(digits);
      var v := if signed && s[0] == '-' then -magnitude else magnitude;
      if IsInt64(v) then Some(v) else None
  }

  lemma {:induction false} DigitsValueOfNatDigits(n: nat)
    ensures DigitsValue(NatDigits(n)) == n
  {
    if n >= 10 {
      var s := NatDigits(n);
      assert s[..|s| - 1] == NatDigits(n / 10);
      DigitsValueOfNatDigits(n / 10);
    }
  }

  /** Parsing what `%d` prints gives the number back, for every 64-bit `int`. */
  lemma AtoiFormatInt(n: int)
    requires IsInt64(n)
    ensures Atoi(FormatInt(n)) == Some(n)
  {
    var s := FormatInt(n);
    if n < 0 {
      var d := NatDigits(-n);
      assert s == "-" + d;
      assert s[1..] == d;
      DigitsValueOfNatDigits(-n);
      assert DigitsValue(s[1..]) == -n;
    } else {
      assert s == NatDigits(n);
      assert !(s[0] == '+' || s[0] == '-');
      DigitsValueOfNatDigits(n);
    }
  }

  /** A non-empty digit string parses, bare or after '+', to its value exactly when
      that value is at most MaxInt64, and after '-' to its negation exactly when
      that value is at most MaxInt64 + 1 (leading zeros allowed). */
  lemma AtoiDigits(s: string)
    requires AllDigits(s) && 1 <= |s|
    ensures Atoi(s) == if DigitsValue(s) <= MaxInt64 then Some(DigitsValue(s) as int) else None
    ensures Atoi("+" + s) == if DigitsValue(s) <= MaxInt64 then Some(DigitsValue(s) as int) else None
    ensures Atoi("-" + s) == if DigitsValue(s) <= MaxInt64 + 1 then Some(-(DigitsValue(s) as int)) else None
  {
    assert IsDigit(s[0]);
    AtoiPlus(s);
    AtoiMinus(s);
  }

  lemma AtoiPlus(s: string)
    requires AllDigits(s) && 1 <= |s|
    ensures Atoi("+" + s) == if DigitsValue(s) <= MaxInt64 then Some(DigitsValue(s) as int) else None
  {
    var t := "+" + s;
    assert t[0] == '+' && t[1..] == s;
  }

  lemma AtoiMinus(s: string)
    requires AllDigits(s) && 1 <= |s|
    ensures Atoi("-" + s) == if DigitsValue(s) <= MaxInt64 + 1 then Some(-(DigitsValue(s) as int)) else None
  {
    var t := "-" + s;
    assert t[0] == '-' && t[1..] == s;
    var v: int := -(DigitsValue(s) as int);
    assert IsInt64(v) <==> DigitsValue(s) <= MaxInt64 + 1;
  }
}
