/**
 * The pieces of the C and C++ standard library the modelled code relies on:
 * character classification in the "C" locale, `tolower`, `std::stoi`, and the
 * wrap-around of 64-bit `size_t` arithmetic.
 */
module CLib {
  import opened Wrappers

  const INT_MIN: int := -0x8000_0000
  const INT_MAX: int := 0x7FFF_FFFF
  /** 2^64: `size_t` arithmetic is taken modulo this value. */
  const SIZE_MOD: int := 0x1_0000_0000_0000_0000
  const SIZE_MAX: int := SIZE_MOD - 1

  /** `std::isspace` in the "C" locale. */
  predicate IsSpace(c: char) {
    c == ' ' || c == '\t' || c == '\n' || c == '\r' || c == '\U{000B}' || c == '\U{000C}'
  }

  predicate IsDigit(c: char) { '0' <= c <= '9' }
  predicate IsUpper(c: char) { 'A' <= c <= 'Z' }
  predicate IsLower(c: char) { 'a' <= c <= 'z' }
  predicate IsAlpha(c: char) { IsUpper(c) || IsLower(c) }
  predicate IsAlnum(c: char) { IsAlpha(c) || IsDigit(c) }

  /** `std::tolower`: upper-case letters map to lower case, everything else is kept. */
  function ToLower(c: char): (r: char)
    ensures IsAlpha(r) <==> IsAlpha(c)
    ensures IsAlpha(c) ==> IsLower(r)
    ensures !IsUpper(c) ==> r == c
    ensures IsUpper(c) ==> r as int == c as int + 32
  {
    if IsUpper(c) then (c as int + 32) as char else c
  }

  /** A `size_t` conversion or result: the value modulo 2^64. */
  function SizeT(v: int): (r: nat)
    ensures r < SIZE_MOD
    ensures 0 <= v < SIZE_MOD ==> r == v
  {
    v % SIZE_MOD
  }

  predicate AllDigits(s: string) {
    forall k | 0 <= k < |s| :: IsDigit(s[k])
  }

  function DigitValue(c: char): nat
    requires IsDigit(c)
  {
    c as int - '0' as int
  }

  /** The value of a string of decimal digits, most significant first. */
  function DigitsValue(s: string): nat
    requires AllDigits(s)
  {
    if s == [] then 0 else DigitsValue(s[..|s| - 1]) * 10 + DigitValue(s[|s| - 1])
  }

  /** The shortest decimal spelling of `n`. */
  function Decimal(n: nat): (r: string)
    ensures |r| >= 1 && AllDigits(r)
  {
    var d := ((n % 10) + '0' as int) as char;
    if n < 10 then [d] else Decimal(n / 10) + [d]
  }

  /** Reading back the decimal spelling gives the number. */
  lemma {:induction false} DecimalValue(n: nat)
    ensures DigitsValue(Decimal(n)) == n
  {
    var r := Decimal(n);
    if n >= 10 {
      DecimalValue(n / 10);
      assert r[..|r| - 1] == Decimal(n / 10);
    }
  }

  /** First index at or after `i` that does not hold a digit. */
  function DigitRunEnd(s: string, i: nat): (j: nat)
    requires i <= |s|
    ensures i <= j <= |s|
    ensures j == |s| || !IsDigit(s[j])
    ensures forall k | i <= k < j :: IsDigit(s[k])
    decreases |s| - i
  {
    if i < |s| && IsDigit(s[i]) then DigitRunEnd(s, i + 1) else i
  }

  /** First index at or after `i` that does not hold white space. */
  function SpaceRunEnd(s: string, i: nat): (j: nat)
    requires i <= |s|
    ensures i <= j <= |s|
    ensures j == |s| || !IsSpace(s[j])
    ensures forall k | i <= k < j :: IsSpace(s[k])
    decreases |s| - i
  {
    if i < |s| && IsSpace(s[i]) then SpaceRunEnd(s, i + 1) else i
  }

  /** The two exceptions `std::stoi` throws. */
  datatype StoiError = InvalidArgument | OutOfRange

  /**
   * `std::stoi(s)` with base 10: leading white space is skipped, an optional
   * sign is read, then the longest run of digits; the rest of the string is
   * ignored.  No digit gives `invalid_argument`, a value outside `int` gives
   * `out_of_range`.
   */
  function Stoi(s: string): (r: Result<int, StoiError>)
    ensures r.Success? ==> INT_MIN <= r.value <= INT_MAX
  {
    var i := SpaceRunEnd(s, 0);
    var negative := i < |s| && s[i] == '-';
    var d := if i < |s| && (s[i] == '-' || s[i] == '+') then i + 1 else i;
    var e := DigitRunEnd(s, d);
    if e == d then Failure(InvalidArgument)
    else
      var magnitude: int := DigitsValue(s[d..e]);
      var v := if negative then -magnitude else magnitude;
      if INT_MIN <= v <= INT_MAX then Success(v) else Failure(OutOfRange)
  }

  /** A run of digits up to the end of the string ends at the end. */
  lemma {:induction false} DigitRunToEnd(s: string, i: nat)
    requires i <= |s|
    requires forall k | i <= k < |s| :: IsDigit(s[k])
    ensures DigitRunEnd(s, i) == |s|
    decreases |s| - i
  {
    if i < |s| {
      DigitRunToEnd(s, i + 1);
    }
  }

  /** `std::stoi` of an optional sign followed by digits and nothing else. */
  lemma StoiSignedDigits(sign: string, digits: string)
    requires sign == [] || sign == "-" || sign == "+"
    requires AllDigits(digits)
    ensures digits == [] ==> Stoi(sign + digits) == Failure(InvalidArgument)
    ensures digits != [] ==>
      var v: int := if sign == "-" then -(DigitsValue(digits) as int) else DigitsValue(digits);
      Stoi(sign + digits) == if INT_MIN <= v <= INT_MAX then Success(v) else Failure(OutOfRange)
  {
    var s := sign + digits;
    var d := |sign|;
    StoiFrontEnd(sign, digits);
    assert s[d..|s|] == digits;
  }

  /** Where `std::stoi` finds the sign and the digits of an optional sign followed by digits. */
  lemma StoiFrontEnd(sign: string, digits: string)
    requires sign == [] || sign == "-" || sign == "+"
    requires AllDigits(digits)
    ensures SpaceRunEnd(sign + digits, 0) == 0
    ensures sign != [] ==> (sign + digits)[0] == sign[0]
    ensures sign == [] && digits != [] ==> IsDigit((sign + digits)[0])
    ensures DigitRunEnd(sign + digits, |sign|) == |sign + digits|
  {
    var s := sign + digits;
    var d := |sign|;
    if |s| > 0 {
      assert s[0] == if sign == [] then digits[0] else sign[0];
      assert !IsSpace(s[0]);
    }
    assert forall k | d <= k < |s| :: s[k] == digits[k - d];
    DigitRunToEnd(s, d);
  }
}
