/**
 * Java primitives the TaskMaker data layer relies on: the range of `long`,
 * the `(int)` narrowing a Cursor applies in `getInt`, `String.valueOf(long)`
 * and `Long.parseLong`, plus the exceptions the layer throws.
 */
module Primitives {

  const LONG_MIN: int := -0x8000_0000_0000_0000
  const LONG_MAX: int := 0x7FFF_FFFF_FFFF_FFFF
  const INT_MIN: int := -0x8000_0000
  const INT_MAX: int := 0x7FFF_FFFF

  /** A Java `long`. */
  type Long = x: int | LONG_MIN <= x <= LONG_MAX

  datatype Option<T> = None | Some(value: T)

  /** The unchecked exceptions raised on the paths modelled here. */
  datatype Exception =
    | UnsupportedOperation(message: string)
    | IllegalArgument(message: string)
    | IllegalState(message: string)
    | NumberFormat(input: string)
    | NullPointer
    | SQLite(message: string)

  /** A value, or the exception that was thrown instead. */
  datatype Result<T> = Ok(value: T) | Throws(error: Exception)

  /** `(int) x`: keep the low 32 bits, read as two's complement. */
  function LongToInt(x: Long): (r: int)
    ensures INT_MIN <= r <= INT_MAX
    ensures (x - r) % 0x1_0000_0000 == 0
  {
    (x - INT_MIN) % 0x1_0000_0000 + INT_MIN
  }

  /** Narrowing leaves every value already in `int` range alone. */
  lemma LongToIntKeepsInts(x: Long)
    requires INT_MIN <= x <= INT_MAX
    ensures LongToInt(x) == x
  {
  }

  predicate IsDigit(c: char) {
    '0' <= c <= '9'
  }

  predicate IsDigits(s: string) {
    forall i :: 0 <= i < |s| ==> IsDigit(s[i])
  }

  function DigitChar(d: nat): (c: char)
    requires d < 10
    ensures IsDigit(c)
  {
    (('0' as int) + d) as char
  }

  /** The value of a string of decimal digits, most significant first. */
  function DigitsValue(s: string): nat
    requires IsDigits(s)
  {
    if s == [] then 0
    else DigitsValue(s[..|s| - 1]) * 10 + ((s[|s| - 1] as int) - ('0' as int))
  }

  /** The shortest decimal text of a natural number. */
  function NatToString(n: nat): (s: string)
    ensures s != [] && IsDigits(s)
  {
    if n < 10 then [DigitChar(n)] else NatToString(n / 10) + [DigitChar(n % 10)]
  }

  /** `String.valueOf(long)`. */
  function LongToString(x: Long): string {
    if x < 0 then "-" + NatToString(0 - x as int) else NatToString(x)
  }

  /**
   * `Long.parseLong(s)` in radix 10: an optional sign, then at least one
   * digit, and a value that fits in a `long`; anything else throws.
   */
  function ParseLong(s: string): (r: Result<Long>)
    ensures r.Throws? ==> r.error == NumberFormat(s)
  {
    var signed := |s| > 0 && (s[0] == '-' || s[0] == '+');
    var digits := if signed then s[1..] else s;
    if digits == [] || !IsDigits(digits) then Throws(NumberFormat(s))
    else
      var v: int := if signed && s[0] == '-' then 0 - DigitsValue(digits) as int else DigitsValue(digits);
      if LONG_MIN <= v <= LONG_MAX then Ok(v) else Throws(NumberFormat(s))
  }

  /** Reading back the decimal text of `n` gives `n`. */
  lemma {:induction false} NatStringValue(n: nat)
    ensures DigitsValue(NatToString(n)) == n
  {
    if n >= 10 {
      var prefix := NatToString(n / 10);
      NatStringValue(n / 10);
      assert NatToString(n) == prefix + [DigitChar(n % 10)];
      assert (prefix + [DigitChar(n % 10)])[..|prefix|] == prefix;
    }
  }

  /** `Long.parseLong(String.valueOf(x)) == x` for every `long`. */
  lemma LongTextRoundTrip(x: Long)
    ensures ParseLong(LongToString(x)) == Ok(x)
  {
    var s := LongToString(x);
    if x < 0 {
      NatStringValue(0 - x as int);
      assert s[1..] == NatToString(0 - x as int);
    } else {
      NatStringValue(x);
      assert IsDigit(s[0]);
    }
  }

  /** A plain digit string is parsed as its value, or rejected when too large. */
  lemma ParseDigits(s: string)
    requires s != [] && IsDigits(s)
    ensures DigitsValue(s) <= LONG_MAX ==> ParseLong(s) == Ok(DigitsValue(s))
    ensures DigitsValue(s) > LONG_MAX ==> ParseLong(s) == Throws(NumberFormat(s))
  {
  }
}
