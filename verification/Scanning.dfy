/** What the text readers share: their outcome, digits and hexadecimal digits. */
module Scanning {

  /** A value read from the head of a text and what follows it. */
  datatype Parsed<+T> = Fail | Got(value: T, rest: string)

  predicate IsDigit(c: char) { '0' <= c <= '9' }

  function HexDigit(n: nat): char
    requires n < 16
  {
    "0123456789abcdef"[n]
  }

  function HexValue(c: char): (r: int)
    ensures -1 <= r < 16
  {
    if '0' <= c <= '9' then c as int - '0' as int
    else if 'a' <= c <= 'f' then c as int - 'a' as int + 10
    else if 'A' <= c <= 'F' then c as int - 'A' as int + 10
    else -1
  }

  lemma HexDigitRoundTrip(k: nat)
    requires k < 16
    ensures HexValue(HexDigit(k)) == k
  {
  }
}
