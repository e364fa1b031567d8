/** Decimal text of integers, as strconv and fmt's %d write it. */
module Decimal {
  import opened Options
  import opened Scanning

  function Digit(n: nat): (c: char)
    requires n < 10
    ensures IsDigit(c)
  {
    ('0' as int + n) as char
  }

  function DigitValue(c: char): nat
    requires IsDigit(c)
  {
    c as int - '0' as int
  }

  predicate AllDigits(s: string) {
    forall i :: 0 <= i < |s| ==> IsDigit(s[i])
  }

  function NatText(n: nat): (s: string)
    ensures s != "" && AllDigits(s)
  {
    if n < 10 then [Digit(n)] else NatText(n / 10) + [Digit(n % 10)]
  }

  function NatValue(s: string): nat
    requires AllDigits(s)
  {
    if s == "" then 0 else NatValue(s[..|s| - 1]) * 10 + DigitValue(s[|s| - 1])
  }

  lemma {:induction false} NatRoundTrip(n: nat)
    ensures NatValue(NatText(n)) == n
  {
    if n >= 10 {
      var s := NatText(n);
      assert s[..|s| - 1] == NatText(n / 10) && s[|s| - 1] == Digit(n % 10);
      NatRoundTrip(n / 10);
    }
  }

  function IntText(n: int): string {
    if n < 0 then "-" + NatText(-n) else NatText(n)
  }

  /** Reads back what IntText writes; None on other text. */
  function IntValue(s: string): Option<int> {
    if s != "" && AllDigits(s) then
      var n: int := NatValue(s);
      Some(n)
    else if |s| > 1 && s[0] == '-' && AllDigits(s[1..]) then
      var n: int := NatValue(s[1..]);
      Some(-n)
    else None
  }

  lemma IntRoundTrip(n: int)
    ensures IntValue(IntText(n)) == Some(n)
  {
    NatRoundTrip(if n < 0 then -n else n);
    if n < 0 {
      assert IntText(n)[0] == '-' && IntText(n)[1..] == NatText(-n);
    }
  }

  lemma IntTextInjective(a: int, b: int)
    ensures IntText(a) == IntText(b) ==> a == b
  {
    IntRoundTrip(a);
    IntRoundTrip(b);
  }

  lemma IntTextChars(n: int)
    ensures IntText(n) != "" && forall i :: 0 <= i < |IntText(n)| ==> IsDigit(IntText(n)[i]) || IntText(n)[i] == '-'
  {
  }
}
