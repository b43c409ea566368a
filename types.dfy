/**
 * Types shared by the whole transcoder (the declarations of sexp.h):
 * bytes, the object tree, the two error severities and the failure-compatible
 * results used in place of the C program's process exit on a fatal error.
 */
module SexpTypes {

  /** An 8-bit byte, as held in a simple string. */
  type byte = x: int | 0 <= x < 256

  /** The value the C library's character reader returns at end of input. */
  const EOF: int := -1

  /** The low eight bits of a C int (`c & 0xFF`); Dafny's remainder is never negative, so EOF gives 255. */
  function LowByte(c: int): (b: byte)
    ensures 0 <= c < 256 ==> b == c
  {
    c % 256
  }

  datatype Option<+T> = None | Some(value: T)

  /**
   * An S-expression object. A string is a value with an optional presentation
   * hint (both simple strings); a list holds its elements in order. The C
   * representation (a union overlaid on a shared type tag, lists as linked
   * cells) is replaced by this sum type.
   */
  datatype Obj =
    | Str(hint: Option<seq<byte>>, val: seq<byte>)
    | List(elems: seq<Obj>)

  /** Output modes of sexp.h: CANONICAL = 1, BASE64 = 2, ADVANCED = 3. */
  datatype Mode = Canonical | Base64 | Advanced

  /** The fatal errors (calls of err) of the scanner and the printers. */
  datatype Error =
    | BadRegionChar(c: int, size: int)          // character found in a 4- or 6-bit coding region
    | UnexpectedChar(found: int, expected: int) // skipChar saw something else
    | DecimalTooLong(value: int)                // tenth digit of a length prefix
    | VerbatimNoLength                          // verbatim string without a declared length
    | QuotedTooEarly(length: int)               // closing quote before the declared length
    | QuotedTooLong(length: int)                // more bytes than the declared length before the closing quote
    | UnterminatedQuoted                        // end of input inside a quoted string
    | OctalTooShort(value: int)                 // \ooo escape with fewer than three octal digits
    | OctalTooBig(value: int)                   // \ooo escape above 255
    | HexEscapeTooShort(value: int)             // \xhh escape with fewer than two hex digits
    | IllegalChar(position: int, c: int)        // no simple string starts with this character
    | IllegalOutputBase(size: int)              // output byte size other than 4, 6 or 8
    | IllegalByteSizeChange(from: int, to: int) // switch between two restricted output sizes
    | RestrictedAdvanced                        // advanced printing inside a restricted region

  /** The non-fatal warnings (calls of warn). */
  datatype Warning =
    | UnusedBits(size: int, n: int)                   // region ended with nonzero leftover bits
    | UnknownEscape(c: int)                           // backslash followed by an unknown character
    | HexLengthMismatch(actual: int, declared: int)   // hex string of another length than declared
    | Base64LengthMismatch(actual: int, declared: int)
    | ZeroLength                                      // a simple string of length zero

  /** Success or a fatal error, for operations that return nothing. */
  datatype Outcome = Pass | Fail(error: Error) {
    predicate IsFailure() { Fail? }
    function PropagateFailure(): Outcome requires Fail? { this }
  }

  /** A value or a fatal error. */
  datatype Result<+T> = Ok(value: T) | Err(error: Error) {
    predicate IsFailure() { Err? }
    function PropagateFailure<U>(): Result<U> requires Err? { Err(error) }
    function Extract(): T requires Ok? { value }
  }
}
