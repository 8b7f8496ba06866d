/** Decimal numerals, as `%d` prints them and as a TOML "Integer" or an RFC 3339 field reads them. */
module Decimal {
  import opened Options
  import opened Text

  function DigitChar(d: nat): (c: char)
    requires d < 10
    ensures IsDigit(c) && DigitValue(c) == d
  {
    '0' + d as char
  }

  function DigitValue(c: char): (d: nat)
    requires IsDigit(c)
    ensures d < 10
  {
    (c - '0') as nat
  }

  /** `%d` of a non-negative number. */
  function Print(n: nat): (s: string)
    ensures s != "" && All(s, IsDigit)
    ensures s[0] == '0' ==> s == "0"
    ensures n > 0 ==> s[0] != '0'
    ensures Value(s) == n
  {
    if n < 10 then [DigitChar(n)]
    else
      var s := Print(n / 10) + [DigitChar(n % 10)];
      assert s[..|s| - 1] == Print(n / 10);
      s
  }

  function Value(s: string): nat
    requires All(s, IsDigit)
  {
    if s == "" then 0 else 10 * Value(s[..|s| - 1]) + DigitValue(s[|s| - 1])
  }

  /** A decimal integer without sign, leading zeros or separators. */
  function Parse(s: string): Option<nat> {
    if s == "" || !AllDigits(s) || (s[0] == '0' && s != "0") then None else Some(Value(s))
  }

  predicate AllDigits(s: string)
    ensures AllDigits(s) <==> All(s, IsDigit)
  {
    s == "" || (IsDigit(s[0]) && AllDigits(s[1..]))
  }

  /** Reading a printed number gives the number back. */
  lemma ParsePrint(n: nat)
    ensures Parse(Print(n)) == Some(n)
  {
  }
}
