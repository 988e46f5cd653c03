/** The few pieces of `java.lang` arithmetic and text handling the model
    relies on: 32-bit `int` narrowing, `String.hashCode`, `Integer.parseInt`
    and the decimal form of an integer. Characters are treated as UTF-16
    code units. */
module JavaLang {
  import opened Wrappers

  const INT_MIN: int := -0x8000_0000
  const INT_MAX: int := 0x7FFF_FFFF
  const TWO_TO_32: int := 0x1_0000_0000

  predicate IsInt32(n: int) { INT_MIN <= n <= INT_MAX }

  /** Narrowing to a Java `int`: keep the low 32 bits, read as two's complement. */
  function ToInt32(n: int): (r: int)
    ensures IsInt32(r)
    ensures (n - r) % TWO_TO_32 == 0
    ensures IsInt32(n) ==> r == n
  {
    var w := n % TWO_TO_32;
    if w <= INT_MAX then w else w - TWO_TO_32
  }

  /** `String.hashCode`: h = 31 * h + c over the characters, in `int` arithmetic. */
  function StringHash(s: string): (h: int)
    ensures IsInt32(h)
  {
    if s == [] then 0 else ToInt32(31 * StringHash(s[..|s| - 1]) + s[|s| - 1] as int)
  }

  predicate IsDigit(c: char) { '0' <= c <= '9' }

  predicate AllDigits(s: string) { forall i | 0 <= i < |s| :: IsDigit(s[i]) }

  function DigitChar(d: nat): (c: char)
    requires d < 10
    ensures IsDigit(c)
  {
    ('0' as int + d) as char
  }

  /** The value of a string of decimal digits. */
  function DecimalValue(s: string): nat
    requires AllDigits(s)
  {
    if s == [] then 0 else 10 * DecimalValue(s[..|s| - 1]) + (s[|s| - 1] as int - '0' as int)
  }

  /** The digits `Integer.toString` / `Long.toString` print for a non-negative value. */
  function NatToDecimal(n: nat): (s: string)
    ensures |s| >= 1 && AllDigits(s)
    ensures DecimalValue(s) == n
  {
    if n < 10 then [DigitChar(n)]
    else
      var s := NatToDecimal(n / 10) + [DigitChar(n % 10)];
      assert s[..|s| - 1] == NatToDecimal(n / 10);
      s
  }

  /** The decimal form of an integer, with a leading '-' when negative. */
  function IntToDecimal(n: int): string
  {
    if n < 0 then "-" + NatToDecimal(-n) else NatToDecimal(n)
  }

  /** `Integer.parseInt(s)` on ASCII digits: an optional sign, then at least one
      digit, and the value must fit in an `int`; `None` is a
      `NumberFormatException`. */
  function ParseInt32(s: string): (r: Option<int>)
    ensures r.Some? ==> IsInt32(r.value)
  {
    if s == [] then None
    else
      var negative := s[0] == '-';
      var digits := if s[0] == '-' || s[0] == '+' then s[1..] else s;
      if digits == [] || !AllDigits(digits) then None
      else
        var magnitude: int := DecimalValue(digits);
        var v := if negative then -magnitude else magnitude;
        if IsInt32(v) then Some(v) else None
  }

  /** `Integer.parseInt` reads back the decimal text of every `int`. */
  lemma ParseIntToDecimal(n: int)
    requires IsInt32(n)
    ensures ParseInt32(IntToDecimal(n)) == Some(n)
  {
    var s := IntToDecimal(n);
    if n < 0 {
      assert s[1..] == NatToDecimal(-n);
    } else {
      var digits := NatToDecimal(n);
      assert IsDigit(digits[0]);
    }
  }
}
