/**
 * Characters and bytes as the LG serial protocol uses them: ASCII case folding
 * (what `re.IGNORECASE` does on byte patterns), hexadecimal digits, and the
 * two-digit upper-case hex format `'{:02X}'` together with `int(s, 16)`.
 */
module Wire {

  /** One octet of the serial stream, written as the character with the same code. */
  type Byte = c: char | c as int < 256 witness ' '

  function Lower(c: char): char {
    if 'A' <= c <= 'Z' then (c as int + 32) as char else c
  }

  function Upper(c: char): char {
    if 'a' <= c <= 'z' then (c as int - 32) as char else c
  }

  function UpperString(s: string): string {
    seq(|s|, i requires 0 <= i < |s| => Upper(s[i]))
  }

  /** Byte `b` equals character `c` up to ASCII case, as under `re.IGNORECASE`. */
  predicate SameUpToCase(b: char, c: char) {
    Lower(b) == Lower(c)
  }

  /** `[0-9a-f]` under `re.IGNORECASE`. */
  predicate IsHexDigit(c: char) {
    '0' <= c <= '9' || 'a' <= c <= 'f' || 'A' <= c <= 'F'
  }

  predicate IsUpperHexDigit(c: char) {
    '0' <= c <= '9' || 'A' <= c <= 'F'
  }

  function HexDigit(d: nat): (c: char)
    requires d < 16
    ensures IsUpperHexDigit(c)
  {
    if d < 10 then ('0' as int + d) as char else ('A' as int + d - 10) as char
  }

  function DigitValue(c: char): (d: nat)
    requires IsHexDigit(c)
    ensures d < 16
  {
    if '0' <= c <= '9' then c as int - '0' as int
    else if 'a' <= c <= 'f' then c as int - 'a' as int + 10
    else c as int - 'A' as int + 10
  }

  /** `'{:02X}'.format(n)` for a value that fits in two digits. */
  function Hex2(n: nat): (s: string)
    requires n < 256
    ensures |s| == 2 && IsUpperHexDigit(s[0]) && IsUpperHexDigit(s[1])
  {
    [HexDigit(n / 16), HexDigit(n % 16)]
  }

  predicate IsHex2(s: string) {
    |s| == 2 && IsHexDigit(s[0]) && IsHexDigit(s[1])
  }

  /** `int(s, 16)` on a string of exactly two hex digits, either case. */
  function ParseHex2(s: string): (n: nat)
    requires IsHex2(s)
    ensures n < 256
  {
    16 * DigitValue(s[0]) + DigitValue(s[1])
  }

  /** Reading back a formatted value gives the value. */
  lemma ParseHex2OfHex2(n: nat)
    requires n < 256
    ensures IsHex2(Hex2(n)) && ParseHex2(Hex2(n)) == n
  {
  }

  /** Formatting a parsed value gives the digits back, in upper case. */
  lemma Hex2OfParseHex2(s: string)
    requires IsHex2(s)
    ensures Hex2(ParseHex2(s)) == UpperString(s)
  {
    var n := ParseHex2(s);
    assert n / 16 == DigitValue(s[0]) && n % 16 == DigitValue(s[1]);
  }

  /** Two values format to the same two digits only if they are equal. */
  lemma Hex2Injective(m: nat, n: nat)
    requires m < 256 && n < 256 && Hex2(m) == Hex2(n)
    ensures m == n
  {
    ParseHex2OfHex2(m);
    ParseHex2OfHex2(n);
  }
}
