/** Decimal text of integers, as Python's `str(n)` and the `{n:02}` format
    specification produce it, with a parser that reads the text back. */
module Text {

  /** The character of one decimal digit. */
  function Digit(d: nat): (c: char)
    requires d < 10
    ensures '0' <= c <= '9'
    ensures DigitValue(c) == d
  {
    (('0' as int) + d) as char
  }

  /** The value of a digit character. */
  function DigitValue(c: char): int
  {
    (c as int) - ('0' as int)
  }

  predicate IsDigits(s: string)
  {
    forall i :: 0 <= i < |s| ==> '0' <= s[i] <= '9'
  }

  /** The value of a string of digits, most significant first. */
  function ParseDigits(s: string): int
  {
    if s == [] then 0 else ParseDigits(s[..|s| - 1]) * 10 + DigitValue(s[|s| - 1])
  }

  /** The value of a decimal text with an optional leading minus sign. */
  function ParseInt(s: string): int
  {
    if |s| > 0 && s[0] == '-' then -ParseDigits(s[1..]) else ParseDigits(s)
  }

  /** `str(n)` for a non-negative `n`: its digits without leading zeros. */
  function NatString(n: nat): (s: string)
    ensures |s| >= 1 && IsDigits(s)
    ensures n > 0 ==> s[0] != '0'
    ensures |s| == 1 <==> n < 10
    ensures ParseDigits(s) == n
  {
    if n < 10 then [Digit(n)]
    else
      var front := NatString(n / 10);
      var s := front + [Digit(n % 10)];
      assert s[..|s| - 1] == front;
      s
  }

  /** `str(n)` for any integer `n`: a minus sign before the digits of `-n`
      when `n` is negative. */
  function DecimalString(n: int): (s: string)
    ensures |s| >= 1
    ensures s[0] == '-' <==> n < 0
    ensures n >= 0 ==> IsDigits(s)
    ensures n > 0 ==> s[0] != '0'
    ensures n < 0 ==> |s| >= 2 && IsDigits(s[1..]) && s[1] != '0'
    ensures |s| == 1 <==> 0 <= n < 10
    ensures ParseInt(s) == n
  {
    if n < 0 then
      var digits := NatString(-n);
      var s := "-" + digits;
      assert s[1..] == digits;
      s
    else NatString(n)
  }

  /** `format(n, "02")`: `str(n)` padded with zeros after the sign up to
      width two. Only a single digit is short of that width. */
  function Pad2(n: int): (s: string)
    ensures |s| >= 2
    ensures 0 <= n < 100 ==> |s| == 2 && IsDigits(s)
    ensures |DecimalString(n)| >= 2 ==> s == DecimalString(n)
    ensures ParseInt(s) == n
  {
    var plain := DecimalString(n);
    if |plain| >= 2 then plain
    else
      var s := "0" + plain;
      assert s[..1] == "0" && ParseDigits("0") == 0;
      assert ParseDigits(plain) == DigitValue(plain[0]) by {
        assert plain[..0] == [];
      }
      s
  }
}
