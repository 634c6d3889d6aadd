/** Models of the C library behaviour the interpreter relies on: `strlen`,
    `isspace`, base-10 `strtoll`, `printf("%" PRId64)`, the range of `int64_t`
    and C99's truncating integer division. */
module LibC {

  const INT64_MIN: int := -0x8000_0000_0000_0000
  const INT64_MAX: int := 0x7FFF_FFFF_FFFF_FFFF

  /** `x` is representable as an `int64_t`. */
  predicate InInt64(x: int) {
    INT64_MIN <= x <= INT64_MAX
  }

  /** `strlen`: the number of characters before the first NUL. */
  function StrLen(s: string): (n: nat)
    ensures n <= |s|
    ensures forall i | 0 <= i < n :: s[i] != '\0'
    ensures n < |s| ==> s[n] == '\0'
  {
    if s == [] || s[0] == '\0' then 0 else 1 + StrLen(s[1..])
  }

  /** The C string a character buffer denotes: everything before the first NUL. */
  function CString(s: string): (c: string)
    ensures '\0' !in c
    ensures c <= s
    ensures '\0' !in s ==> c == s
  {
    s[..StrLen(s)]
  }

  /** C99 (section 6.5.5 of ISO/IEC 9899:1999) integer division truncates toward zero. */
  function TruncDiv(a: int, b: int): (q: int)
    requires b != 0
    ensures var r := a - q * b;
      (if r < 0 then -r else r) < (if b < 0 then -b else b) && (r == 0 || (r < 0) == (a < 0))
  {
    var na := if a < 0 then -a else a;
    var nb := if b < 0 then -b else b;
    var q := na / nb;
    assert na == q * nb + na % nb;
    if (a < 0) == (b < 0) then
      assert a - q * b == (if a < 0 then -(na % nb) else na % nb);
      q
    else
      assert a - (-q) * b == (if a < 0 then -(na % nb) else na % nb);
      -q
  }

  /** `isspace` in the C locale: space, \t, \n, \v, \f and \r. */
  predicate IsSpace(c: char) {
    c == ' ' || c == '\t' || c == '\n' || c == '\r' || c as int == 11 || c as int == 12
  }

  predicate IsDigit(c: char) {
    '0' <= c <= '9'
  }

  predicate AllDigits(s: string) {
    forall i | 0 <= i < |s| :: IsDigit(s[i])
  }

  function DigitValue(c: char): (d: nat)
    requires IsDigit(c)
    ensures d < 10
  {
    c as int - '0' as int
  }

  function DigitChar(d: nat): (c: char)
    requires d < 10
    ensures IsDigit(c) && DigitValue(c) == d
  {
    ('0' as int + d) as char
  }

  /** The number a run of decimal digits denotes, most significant digit first. */
  function DigitsValue(s: string): nat
    requires AllDigits(s)
  {
    if s == [] then 0 else DigitsValue(s[..|s| - 1]) * 10 + DigitValue(s[|s| - 1])
  }

  /** Decimal text of a natural number, without leading zeros. */
  function NatToDecimal(n: nat): (s: string)
    ensures |s| >= 1 && AllDigits(s)
    ensures |s| > 1 ==> s[0] != '0'
    ensures DigitsValue(s) == n
  {
    if n < 10 then
      [DigitChar(n)]
    else
      var s := NatToDecimal(n / 10) + [DigitChar(n % 10)];
      assert s[..|s| - 1] == NatToDecimal(n / 10);
      s
  }

  /** `printf("%" PRId64, v)`: a minus sign for negative values, then the decimal digits. */
  function FormatInt64(v: int): (s: string)
    requires InInt64(v)
    ensures |s| >= 1
    ensures (s[0] == '-') <==> v < 0
  {
    if v < 0 then "-" + NatToDecimal(-v) else NatToDecimal(v)
  }

  /** Result of `strtoll`: the converted value and the index `*endptr` points at. */
  datatype Conversion = Conversion(value: int, end: nat)

  /** Index of the first character at or after `i` that is not white space. */
  function SkipSpaces(s: string, i: nat): (j: nat)
    requires i <= |s|
    ensures i <= j <= |s|
    ensures forall k | i <= k < j :: IsSpace(s[k])
    ensures j < |s| ==> !IsSpace(s[j])
    decreases |s| - i
  {
    if i < |s| && IsSpace(s[i]) then SkipSpaces(s, i + 1) else i
  }

  /** Index of the first character at or after `i` that is not a decimal digit. */
  function DigitsEnd(s: string, i: nat): (j: nat)
    requires i <= |s|
    ensures i <= j <= |s|
    ensures AllDigits(s[i..j])
    ensures j < |s| ==> !IsDigit(s[j])
    decreases |s| - i
  {
    if i < |s| && IsDigit(s[i]) then DigitsEnd(s, i + 1) else i
  }

  /** `strtoll` saturates at the bounds of `int64_t` when the text is out of range. */
  function Saturate(v: int): (r: int)
    ensures InInt64(r)
    ensures InInt64(v) ==> r == v
    ensures v > INT64_MAX ==> r == INT64_MAX
    ensures v < INT64_MIN ==> r == INT64_MIN
  {
    if v > INT64_MAX then INT64_MAX else if v < INT64_MIN then INT64_MIN else v
  }

  /** `strtoll(s, &end, 10)`: optional leading white space, an optional sign, then the longest
      run of digits. With no digits nothing is converted: the value is 0 and `end` is 0. */
  function StrToLL(s: string): (r: Conversion)
    ensures r.end <= |s|
    ensures InInt64(r.value)
  {
    var i := SkipSpaces(s, 0);
    var signed := i < |s| && (s[i] == '+' || s[i] == '-');
    var j := if signed then i + 1 else i;
    var k := DigitsEnd(s, j);
    if k == j then
      Conversion(0, 0)
    else
      var m: int := DigitsValue(s[j..k]);
      Conversion(Saturate(if signed && s[i] == '-' then -m else m), k)
  }

  /** A run of digits reaching the end of the text is consumed to the end. */
  lemma {:induction false} DigitsEndAtEnd(s: string, i: nat)
    requires i <= |s| && AllDigits(s[i..])
    ensures DigitsEnd(s, i) == |s|
    decreases |s| - i
  {
    if i < |s| {
      assert s[i] == s[i..][0];
      assert s[i + 1..] == s[i..][1..];
      DigitsEndAtEnd(s, i + 1);
    }
  }

  /** `strtoll` reads back exactly what `printf("%" PRId64)` wrote, consuming all of it. */
  lemma StrToLLInvertsFormat(v: int)
    requires InInt64(v)
    ensures StrToLL(FormatInt64(v)) == Conversion(v, |FormatInt64(v)|)
  {
    var s := FormatInt64(v);
    if v < 0 {
      var d := NatToDecimal(-v);
      assert s == "-" + d;
      assert !IsSpace(s[0]);
      assert s[1..] == d;
      DigitsEndAtEnd(s, 1);
      assert s[1..|s|] == d;
    } else {
      assert !IsSpace(s[0]);
      assert s[0..] == s;
      DigitsEndAtEnd(s, 0);
      assert s[0..|s|] == s;
    }
  }
}
