/**
 * The character classes of the scanner (the tables that
 * initializeCharacterTables fills in sexp-input.c, with isspace, isdigit and
 * isxdigit taken in the C locale) and the digit alphabets of the printer
 * (sexp-output.c). Characters are the int values the C code passes around,
 * so EOF (-1) belongs to no class.
 */
module SexpChars {
  import opened SexpTypes

  /** isspace in the C locale: blank, tab, line feed, vertical tab, form feed, carriage return. */
  predicate IsWhiteSpace(c: int) {
    c == ' ' as int || 9 <= c <= 13
  }

  predicate IsDecDigit(c: int) {
    '0' as int <= c <= '9' as int
  }

  function DecValue(c: int): (v: int)
    requires IsDecDigit(c)
    ensures 0 <= v < 10
  {
    c - '0' as int
  }

  predicate IsAlpha(c: int) {
    'a' as int <= c <= 'z' as int || 'A' as int <= c <= 'Z' as int
  }

  /** isxdigit in the C locale. */
  predicate IsHexDigit(c: int) {
    IsDecDigit(c) || 'a' as int <= c <= 'f' as int || 'A' as int <= c <= 'F' as int
  }

  /** The hexvalue table: both cases of a-f map to 10-15. */
  function HexValue(c: int): (v: int)
    requires IsHexDigit(c)
    ensures 0 <= v < 16
  {
    if IsDecDigit(c) then c - '0' as int
    else if 'a' as int <= c <= 'f' as int then c - 'a' as int + 10
    else c - 'A' as int + 10
  }

  predicate IsOctalDigit(c: int) {
    '0' as int <= c <= '7' as int
  }

  /** isBase64Digit: A-Z, a-z, 0-9, '+' and '/'; the padding character '=' is not a digit. */
  predicate IsBase64Digit(c: int) {
    IsDecDigit(c) || IsAlpha(c) || c == '+' as int || c == '/' as int
  }

  /** The base64value table (A-Z 0-25, a-z 26-51, 0-9 52-61, '+' 62, '/' 63). */
  function Base64Value(c: int): (v: int)
    requires IsBase64Digit(c)
    ensures 0 <= v < 64
  {
    if IsDecDigit(c) then c - '0' as int + 52
    else if 'a' as int <= c <= 'z' as int then c - 'a' as int + 26
    else if 'A' as int <= c <= 'Z' as int then c - 'A' as int
    else if c == '+' as int then 62
    else 63
  }

  /** isTokenChar: letters, digits and the eight punctuation characters - . / _ : * + = */
  predicate IsTokenChar(c: int) {
    || IsAlpha(c) || IsDecDigit(c)
    || c == '-' as int || c == '.' as int || c == '/' as int || c == '_' as int
    || c == ':' as int || c == '*' as int || c == '+' as int || c == '=' as int
  }

  /** The padding character of base64 text, the line feed and the blank, as bytes. */
  const PadChar: byte := '=' as int
  const LineFeed: byte := '\n' as int
  const Blank: byte := ' ' as int
  const CarriageReturn: byte := '\r' as int

  /** The delimiters of quoted, hexadecimal and base64 strings and the escape byte. */
  const Quote: byte := '"' as int
  const Hash: byte := '#' as int
  const Bar: byte := '|' as int
  const Backslash: byte := '\\' as int

  /** The digits the printer emits in 4-bit regions (hexDigits). */
  const HexDigits: string := "0123456789ABCDEF"

  /** The digits the printer emits in 6-bit regions (base64Digits), the alphabet of section 4 of RFC 4648. */
  const Base64Digits: string := "ABCDEFGHIJKLMNOPQRSTUVWXYZ" + "abcdefghijklmnopqrstuvwxyz" + "0123456789+/"

  /** The hex digit for v, as the character arithmetic of the table HexDigits. */
  function HexDigit(v: int): (c: byte)
    requires 0 <= v < 16
    ensures IsHexDigit(c) && HexValue(c) == v && IsTokenChar(c) && !IsWhiteSpace(c)
  {
    if v < 10 then '0' as int + v else 'A' as int + (v - 10)
  }

  /** The base64 digit for v, as the character arithmetic of the table Base64Digits. */
  function Base64Digit(v: int): (c: byte)
    requires 0 <= v < 64
    ensures IsBase64Digit(c) && Base64Value(c) == v && IsTokenChar(c) && !IsWhiteSpace(c)
  {
    if v < 26 then 'A' as int + v
    else if v < 52 then 'a' as int + (v - 26)
    else if v < 62 then '0' as int + (v - 52)
    else if v == 62 then '+' as int
    else '/' as int
  }

  /** The table HexDigits holds exactly the digits HexDigit computes. */
  lemma {:induction false} HexDigitsTable(v: int)
    requires 0 <= v < 16
    ensures HexDigits[v] as int == HexDigit(v)
  {
    var d, u := "0123456789", "ABCDEF";
    assert HexDigits == d + u;
    if v < 10 { assert HexDigits[v] == d[v]; } else { assert HexDigits[v] == u[v - 10]; }
  }

  /** The table Base64Digits holds exactly the digits Base64Digit computes. */
  lemma Base64DigitsTable(v: int)
    requires 0 <= v < 64
    ensures Base64Digits[v] as int == Base64Digit(v)
  {
    if v < 26 { Base64TableUpper(v); } else if v < 52 { Base64TableLower(v); } else { Base64TableTail(v); }
  }

  lemma {:induction false} Base64TableUpper(v: int)
    requires 0 <= v < 26
    ensures Base64Digits[v] as int == Base64Digit(v)
  {
    var u, l, d := "ABCDEFGHIJKLMNOPQRSTUVWXYZ", "abcdefghijklmnopqrstuvwxyz", "0123456789+/";
    assert Base64Digits == u + l + d;
    assert Base64Digits[v] == u[v];
  }

  lemma {:induction false} Base64TableLower(v: int)
    requires 26 <= v < 52
    ensures Base64Digits[v] as int == Base64Digit(v)
  {
    var u, l, d := "ABCDEFGHIJKLMNOPQRSTUVWXYZ", "abcdefghijklmnopqrstuvwxyz", "0123456789+/";
    assert Base64Digits == u + l + d;
    assert Base64Digits[v] == l[v - 26];
  }

  lemma {:induction false} Base64TableTail(v: int)
    requires 52 <= v < 64
    ensures Base64Digits[v] as int == Base64Digit(v)
  {
    var u, l, d := "ABCDEFGHIJKLMNOPQRSTUVWXYZ", "abcdefghijklmnopqrstuvwxyz", "0123456789+/";
    assert Base64Digits == u + l + d;
    assert Base64Digits[v] == d[v - 52];
  }

  /** Conversely every base64 digit character is the printer's digit for its value. */
  lemma Base64ValueEncodes(c: int)
    requires IsBase64Digit(c)
    ensures Base64Digit(Base64Value(c)) == c
  {
  }

  /** Hex letters are read case-insensitively. */
  lemma HexValueIgnoresCase(k: int)
    requires 0 <= k < 6
    ensures HexValue('a' as int + k) == HexValue('A' as int + k) == 10 + k
  {
  }

}
