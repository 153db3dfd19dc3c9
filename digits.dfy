/** Rust's text-to-integer parsing (`u32::from_str`, `u8::from_str_radix`) and
    the decimal and two-digit hexadecimal formatting used by `Display` impls. */
module Digits {
  import opened Base

  /** `char::to_digit(radix)`: the value of an ASCII digit or letter, if it is below `radix`. */
  function ToDigit(c: char, radix: nat): (r: Option<nat>)
    requires 2 <= radix <= 36
    ensures r.Some? ==> r.value < radix
    ensures '0' <= c <= '9' && (c as int - '0' as int) < radix ==> r == Some(c as int - '0' as int)
  {
    var d :=
      if '0' <= c <= '9' then c as int - '0' as int
      else if 'a' <= c <= 'z' then c as int - 'a' as int + 10
      else if 'A' <= c <= 'Z' then c as int - 'A' as int + 10
      else radix;
    if d < radix then Some(d) else None
  }

  predicate AllDigits(s: string, radix: nat)
    requires 2 <= radix <= 36
  {
    forall i :: 0 <= i < |s| ==> ToDigit(s[i], radix).Some?
  }

  /** The value of a string of digits, most significant first. */
  function DigitsValue(s: string, radix: nat): nat
    requires 2 <= radix <= 36
    requires AllDigits(s, radix)
  {
    if s == [] then 0
    else
      var high: nat := DigitsValue(s[..|s| - 1], radix);
      var low: nat := ToDigit(s[|s| - 1], radix).value;
      assert high * radix >= 0;
      high * radix + low
  }

  /** `from_str_radix` for an unsigned type whose largest value is `max`:
      one optional leading `+`, then at least one digit, and a value that fits.
      A leading `-` is an invalid digit for unsigned types. */
  function ParseUnsigned(s: string, radix: nat, max: nat): (r: Option<nat>)
    requires 2 <= radix <= 36
    ensures r.Some? ==> r.value <= max
    ensures r.Some? ==> |s| > 0 && s != "+"
    ensures r.Some? <==>
      var digits := if |s| > 0 && s[0] == '+' then s[1..] else s;
      |digits| > 0 && AllDigits(digits, radix) && DigitsValue(digits, radix) <= max
    ensures r.Some? ==>
      var digits := if s[0] == '+' then s[1..] else s;
      AllDigits(digits, radix) && r.value == DigitsValue(digits, radix)
  {
    if |s| == 0 then None
    else if s[0] == '+' && |s| == 1 then None
    else
      var digits := if s[0] == '+' then s[1..] else s;
      if AllDigits(digits, radix) && DigitsValue(digits, radix) <= max
      then Some(DigitsValue(digits, radix))
      else None
  }

  /** The character of a digit below 16, lower case as `{:x}` prints it. */
  function DigitChar(d: nat): (c: char)
    requires d < 16
    ensures ToDigit(c, 16) == Some(d)
    ensures '0' <= c <= '9' || 'a' <= c <= 'f'
    ensures d < 10 ==> ToDigit(c, 10) == Some(d)
  {
    if d < 10 then ('0' as int + d) as char else ('a' as int + d - 10) as char
  }

  /** `{}` of an unsigned integer: its decimal digits, no sign, no leading zero. */
  function DecimalString(n: nat): (s: string)
    ensures |s| > 0 && AllDigits(s, 10)
    ensures s[0] != '+' && s[0] != '-'
    ensures n > 0 ==> s[0] != '0'
  {
    if n < 10 then [DigitChar(n)] else DecimalString(n / 10) + [DigitChar(n % 10)]
  }

  /** Parsing what `{}` printed gives the number back. */
  lemma {:induction false} DecimalValue(n: nat)
    ensures DigitsValue(DecimalString(n), 10) == n
  {
    var s := DecimalString(n);
    if n >= 10 {
      DecimalValue(n / 10);
      assert s[..|s| - 1] == DecimalString(n / 10);
    }
  }

  lemma DecimalRoundTrip(n: nat, max: nat)
    requires n <= max
    ensures ParseUnsigned(DecimalString(n), 10, max) == Some(n)
  {
    DecimalValue(n);
  }

  /** `{}` (and `{:?}`) of a signed integer: a `-` for a negative value, then
      the decimal digits of its magnitude. */
  function SignedDecimal(n: int): (s: string)
    ensures |s| > 0 && (s[0] == '-' <==> n < 0)
    ensures SignedValue(s) == Some(n)
  {
    if n < 0 then
      DecimalValue(-n);
      assert ("-" + DecimalString(-n))[1..] == DecimalString(-n);
      "-" + DecimalString(-n)
    else
      DecimalValue(n);
      DecimalString(n)
  }

  /** Reading a signed decimal back: an optional `-`, then at least one digit. */
  function SignedValue(s: string): Option<int>
  {
    if |s| > 1 && s[0] == '-' && AllDigits(s[1..], 10) then Some(0 - DigitsValue(s[1..], 10) as int)
    else if |s| > 0 && s[0] != '-' && AllDigits(s, 10) then Some(DigitsValue(s, 10))
    else None
  }

  /** `{:02x}` of a byte: exactly two lower-case hexadecimal digits. */
  function Hex2(b: U8): (s: string)
    ensures |s| == 2 && AllDigits(s, 16)
    ensures forall i :: 0 <= i < 2 ==> '0' <= s[i] <= '9' || 'a' <= s[i] <= 'f'
    ensures forall i :: 0 <= i < 2 ==> s[i] != ':' && s[i] != '+'
  {
    [DigitChar(b / 16), DigitChar(b % 16)]
  }

  lemma Hex2RoundTrip(b: U8)
    ensures ParseUnsigned(Hex2(b), 16, U8_MAX) == Some(b)
  {
    var s := Hex2(b);
    var high := s[..1];
    assert high == [s[0]] && high[..0] == [];
    assert DigitsValue(high, 16) == b / 16;
    assert DigitsValue(s, 16) == (b / 16) * 16 + b % 16;
  }
}
