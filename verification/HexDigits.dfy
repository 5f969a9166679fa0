/** Hexadecimal digits, as the CGI and HTTP code read and print them. */
module HexDigits {
  import opened IoStreams

  /** hex_to_int: the value of a hex digit of either case, -1 for anything else. */
  function HexToInt(c: Byte): (v: int)
    ensures -1 <= v < 16
  {
    if 48 <= c <= 57 then c - 48
    else if 97 <= c <= 102 then c - 87
    else if 65 <= c <= 70 then c - 55
    else -1
  }

  const UPPER := "0123456789ABCDEF"
  const LOWER := "0123456789abcdef"

  /** The digits of either case, and nothing else. */
  lemma DigitsByText(c: Byte, n: int)
    requires 0 <= n < 16
    ensures HexToInt(c) == n <==> c == UPPER[n] as int || c == LOWER[n] as int
  {
  }

  function LowerDigit(n: int): (c: Byte)
    requires 0 <= n < 16
    ensures HexToInt(c) == n
  {
    if n < 10 then 48 + n else 87 + n
  }

  function UpperDigit(n: int): (c: Byte)
    requires 0 <= n < 16
    ensures HexToInt(c) == n
  {
    if n < 10 then 48 + n else 55 + n
  }
}
