/** Shared vocabulary of the front end: optional and fallible results,
    source positions, and the decimal and Debug renderings that the
    diagnostics are built from. */
module Common {

  datatype Option<+T> = None | Some(value: T)

  datatype Result<+T, +E> = Ok(value: T) | Err(error: E)

  /** A source position (line, column), as the lexer records it. */
  type Position = (nat, nat)

  const I64_MIN: int := -0x8000_0000_0000_0000
  const I64_MAX: int := 0x7FFF_FFFF_FFFF_FFFF

  /** The values of a signed 64-bit integer. */
  type I64 = x: int | I64_MIN <= x <= I64_MAX

  predicate IsAsciiDigit(c: char) {
    '0' <= c <= '9'
  }

  function DigitChar(d: nat): (c: char)
    requires d < 10
    ensures IsAsciiDigit(c) && c as int - '0' as int == d
  {
    (d + '0' as int) as char
  }

  /** Decimal rendering of a natural number, without leading zeros. */
  function NatToString(n: nat): (r: string)
    ensures |r| >= 1
    ensures forall i :: 0 <= i < |r| ==> IsAsciiDigit(r[i])
    ensures r[0] == '0' ==> n == 0
    decreases n
  {
    if n < 10 then [DigitChar(n)] else NatToString(n / 10) + [DigitChar(n % 10)]
  }

  /** Value of a run of decimal digits, most significant first. */
  function DigitsValue(d: string): (v: nat)
    requires forall i :: 0 <= i < |d| ==> IsAsciiDigit(d[i])
    decreases |d|
  {
    if d == [] then 0
    else
      assert IsAsciiDigit(d[|d| - 1]);
      DigitsValue(d[..|d| - 1]) * 10 + (d[|d| - 1] as int - '0' as int)
  }

  /** Decimal rendering of a signed integer, as Rust's Display and Debug give it. */
  function IntToString(i: int): (r: string)
    ensures |r| >= 1 && (i < 0 <==> r[0] == '-')
  {
    if i < 0 then "-" + NatToString(-i) else NatToString(i)
  }

  /** The suffix " at line L, column C" that every position-tagged diagnostic ends with. */
  function AtLineColumn(pos: Position): string {
    " at line " + NatToString(pos.0) + ", column " + NatToString(pos.1)
  }

  /** The escape Rust's Debug uses for one character inside a string literal. */
  function EscapeDebugChar(c: char): (r: string)
    ensures |r| == 1 <==> r == [c]
  {
    match c
    case '\t' => "\\t"
    case '\r' => "\\r"
    case '\n' => "\\n"
    case '\\' => "\\\\"
    case '"' => "\\\""
    case '\0' => "\\0"
    case _ => [c]
  }

  function EscapeDebug(s: string): string
    decreases |s|
  {
    if s == [] then "" else EscapeDebugChar(s[0]) + EscapeDebug(s[1..])
  }

  /** Debug rendering of a string: quoted, with quotes, backslashes and control characters escaped. */
  function DebugString(s: string): string {
    "\"" + EscapeDebug(s) + "\""
  }

  function DebugBool(b: bool): string {
    if b then "true" else "false"
  }
}
