/** Numbers as the decimal text that a C# string concatenation makes of them. */
module Decimals {
  import opened Basics
  import opened FormatTemplate

  function Digit(n: int): char
    requires 0 <= n <= 9
  {
    '0' + n as char
  }

  /** The concatenation of an int and a string: the canonical decimal. */
  function ToDecimal(n: nat): (s: string)
    ensures s != "" && AllDigits(s)
  {
    if n < 10 then [Digit(n)] else ToDecimal(n / 10) + [Digit(n % 10)]
  }

  lemma {:induction false} DecimalRoundTrip(n: nat)
    ensures ParseInt(ToDecimal(n)) == n
  {
    var s := ToDecimal(n);
    assert s[|s| - 1] == Digit(n % 10);
    if n < 10 {
      assert s[..0] == "";
    } else {
      assert s[..|s| - 1] == ToDecimal(n / 10);
      DecimalRoundTrip(n / 10);
    }
  }

  function IntText(n: int): string {
    if n < 0 then "-" + ToDecimal(-n) else ToDecimal(n)
  }

  /** An int read from its text. */
  function ReadWhole(s: string): Option<int> {
    if s != "" && AllDigits(s) then Some(ParseInt(s))
    else if |s| > 1 && s[0] == '-' && AllDigits(s[1..]) then Some(-ParseInt(s[1..]))
    else None
  }

  lemma WholeRoundTrip(n: int)
    ensures ReadWhole(IntText(n)) == Some(n)
  {
    DecimalRoundTrip(if n < 0 then -n else n);
    if n < 0 {
      assert IntText(n)[1..] == ToDecimal(-n);
      assert !IsDigit(IntText(n)[0]);
    }
  }
}
