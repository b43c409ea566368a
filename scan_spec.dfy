/**
 * What each scanning routine of sexp-input.c computes, as functions of the
 * input state. A routine that fills a simple string takes the string's
 * contents so far (`acc`) and returns its new contents; every routine
 * returns the state it leaves the stream in, or the fatal error that stops
 * the program. Loops become tail-recursive functions that carry the loop
 * variables; the methods of SexpScanner are proved to compute them.
 */
module SexpScanSpec {
  import opened SexpTypes
  import opened SexpChars
  import opened SexpInput
  import opened SexpBasic

  /** A scanned value and the state the stream is left in. */
  datatype Scanned<T> = Scanned(v: T, st: InState)

  /** The stream moved forward over the same input, never backwards. */
  ghost predicate Advances(st: InState, st': InState)
    requires ValidIn(st)
  {
    ValidIn(st') && st'.src == st.src && Measure(st') <= Measure(st)
  }

  /** The stream consumed at least one character. */
  ghost predicate StrictlyAdvances(st: InState, st': InState)
    requires ValidIn(st)
  {
    ValidIn(st') && st'.src == st.src && Measure(st') < Measure(st)
  }

  /** skipWhiteSpace: reads until the current character is not white space. */
  function SkipWhiteSpaceF(st: InState): (r: Result<InState>)
    requires ValidIn(st)
    ensures r.Ok? ==> Advances(st, r.value) && !IsWhiteSpace(r.value.nextChar)
    ensures !IsWhiteSpace(st.nextChar) ==> r == Ok(st)
    decreases Measure(st)
  {
    if IsWhiteSpace(st.nextChar) then
      var st' :- GetCharF(st);
      SkipWhiteSpaceF(st')
    else Ok(st)
  }

  /** skipChar: consumes the current character if it is c, and is fatal otherwise. */
  function SkipCharF(st: InState, c: char): (r: Result<InState>)
    requires ValidIn(st)
    ensures r.Ok? ==> StrictlyAdvances(st, r.value) && st.nextChar == c as int
    ensures st.nextChar != c as int ==> r == Err(UnexpectedChar(st.nextChar, c as int))
  {
    if st.nextChar == c as int then GetCharF(st)
    else Err(UnexpectedChar(st.nextChar, c as int))
  }

  /** scanToken: white space, then the longest run of token characters. */
  function ScanTokenF(st: InState, acc: seq<byte>): (r: Result<Scanned<seq<byte>>>)
    requires ValidIn(st)
    ensures r.Ok? ==> Advances(st, r.value.st)
    ensures r.Ok? && IsTokenChar(st.nextChar) ==> StrictlyAdvances(st, r.value.st)
  {
    var st1 :- SkipWhiteSpaceF(st);
    TokenLoop(st1, acc)
  }

  /** The loop of scanToken. */
  function TokenLoop(st: InState, acc: seq<byte>): (r: Result<Scanned<seq<byte>>>)
    requires ValidIn(st)
    ensures r.Ok? ==> Advances(st, r.value.st) && !IsTokenChar(r.value.st.nextChar)
    ensures r.Ok? && IsTokenChar(st.nextChar) ==> StrictlyAdvances(st, r.value.st)
    decreases Measure(st)
  {
    if IsTokenChar(st.nextChar) then
      var st' :- GetCharF(st);
      TokenLoop(st', acc + [LowByte(st.nextChar)])
    else Ok(Scanned(acc, st))
  }

  /** scanToEOF: after white space, every remaining character, as a string with no hint. */
  function ScanToEOFF(st: InState): (r: Result<Scanned<Obj>>)
    requires ValidIn(st)
    ensures r.Ok? ==> Advances(st, r.value.st) && r.value.st.nextChar == EOF && r.value.v.Str? && r.value.v.hint == None
  {
    var st1 :- SkipWhiteSpaceF(st);
    var s :- ToEOFLoop(st1, []);
    Ok(Scanned(Str(None, s.v), s.st))
  }

  /** The loop of scanToEOF. */
  function ToEOFLoop(st: InState, acc: seq<byte>): (r: Result<Scanned<seq<byte>>>)
    requires ValidIn(st)
    ensures r.Ok? ==> Advances(st, r.value.st) && r.value.st.nextChar == EOF
    decreases Measure(st)
  {
    if st.nextChar != EOF then
      var st' :- GetCharF(st);
      ToEOFLoop(st', acc + [LowByte(st.nextChar)])
    else Ok(Scanned(acc, st))
  }

  /** scanDecimal: the value of the run of decimal digits; the tenth digit is fatal. */
  function ScanDecimalF(st: InState): (r: Result<Scanned<nat>>)
    requires ValidIn(st)
    ensures r.Ok? ==> Advances(st, r.value.st) && !IsDecDigit(r.value.st.nextChar)
  {
    ScanDecimalLoop(st, 0, 0)
  }

  /** The loop of scanDecimal, with the value so far and the number `i` of digits read before the current one. */
  function ScanDecimalLoop(st: InState, value: nat, i: nat): (r: Result<Scanned<nat>>)
    requires ValidIn(st)
    ensures r.Ok? ==> Advances(st, r.value.st) && !IsDecDigit(r.value.st.nextChar)
    decreases Measure(st)
  {
    if IsDecDigit(st.nextChar) then
      var v := value * 10 + DecValue(st.nextChar);
      var st' :- GetCharF(st);
      if i > 8 then Err(DecimalTooLong(v))
      else ScanDecimalLoop(st', v, i + 1)
    else Ok(Scanned(value, st))
  }

  /** scanVerbatimString: ':' and then exactly `length` characters, whatever they are. */
  function ScanVerbatimF(st: InState, acc: seq<byte>, length: int): (r: Result<Scanned<seq<byte>>>)
    requires ValidIn(st)
    ensures r.Ok? ==> Advances(st, r.value.st)
  {
    var st1 :- SkipWhiteSpaceF(st);
    var st2 :- SkipCharF(st1, ':');
    if length == -1 then Err(VerbatimNoLength)
    else VerbatimLoop(st2, acc, 0, length)
  }

  /** The loop of scanVerbatimString, copying characters i to length - 1. */
  function VerbatimLoop(st: InState, acc: seq<byte>, i: int, length: int): (r: Result<Scanned<seq<byte>>>)
    requires ValidIn(st)
    ensures r.Ok? ==> Advances(st, r.value.st)
    decreases length - i
  {
    if i < length then
      var st' :- GetCharF(st);
      VerbatimLoop(st', acc + [LowByte(st.nextChar)], i + 1, length)
    else Ok(Scanned(acc, st))
  }

  /** The byte a one-character escape (\b \t \v \n \f \r \" \' \\) stands for. */
  function SimpleEscape(c: int): Option<byte> {
    if c == 'b' as int then Some(8)
    else if c == 't' as int then Some(9)
    else if c == 'v' as int then Some(11)
    else if c == 'n' as int then Some(10)
    else if c == 'f' as int then Some(12)
    else if c == 'r' as int then Some(13)
    else if c == '"' as int then Some('"' as int)
    else if c == '\'' as int then Some('\'' as int)
    else if c == '\\' as int then Some('\\' as int)
    else None
  }

  /** The octal loop of an \ooo escape: digit j of three; the third is left as the current character. */
  function OctalLoop(st: InState, val: nat, j: nat): (r: Result<Scanned<nat>>)
    requires ValidIn(st) && j <= 3
    ensures r.Ok? ==> Advances(st, r.value.st)
    decreases 3 - j
  {
    if j == 3 then Ok(Scanned(val, st))
    else if IsOctalDigit(st.nextChar) then
      var v := val * 8 + (st.nextChar - '0' as int);
      if j < 2 then
        var st' :- GetCharF(st);
        OctalLoop(st', v, j + 1)
      else OctalLoop(st, v, j + 1)
    else Err(OctalTooShort(val))
  }

  /** The hex loop of an \xhh escape: digit j of two; the second is left as the current character. */
  function HexEscLoop(st: InState, val: nat, j: nat): (r: Result<Scanned<nat>>)
    requires ValidIn(st) && j <= 2
    ensures r.Ok? ==> Advances(st, r.value.st)
    decreases 2 - j
  {
    if j == 2 then Ok(Scanned(val, st))
    else if IsHexDigit(st.nextChar) then
      var v := val * 16 + HexValue(st.nextChar);
      if j < 1 then
        var st' :- GetCharF(st);
        HexEscLoop(st', v, j + 1)
      else HexEscLoop(st, v, j + 1)
    else Err(HexEscapeTooShort(val))
  }

  /** The result of one pass of the quoted-string loop: whether the closing quote was consumed. */
  datatype QOut = QOut(done: bool, acc: seq<byte>, st: InState)

  /**
   * The escape sequence whose backslash has just been consumed; the current
   * character is the one after the backslash. Ends, like the C code, with
   * the character after the sequence current.
   */
  function EscapeF(st: InState, acc: seq<byte>): (r: Result<QOut>)
    requires ValidIn(st)
    ensures r.Ok? ==> Advances(st, r.value.st) && !r.value.done
  {
    var c := st.nextChar;
    if SimpleEscape(c).Some? then
      var st' :- GetCharF(st);
      Ok(QOut(false, acc + [SimpleEscape(c).value], st'))
    else if IsOctalDigit(c) then OctalEscapeF(st, acc)
    else if c == 'x' as int then HexEscapeF(st, acc)
    else if c == '\n' as int || c == '\r' as int then LineContinuationF(st, acc)
    else
      var st' :- GetCharF(st.(warnings := st.warnings + [UnknownEscape(c)]));
      Ok(QOut(false, acc, st'))
  }

  /** An \ooo escape: three octal digits of value at most 255. */
  function OctalEscapeF(st: InState, acc: seq<byte>): (r: Result<QOut>)
    requires ValidIn(st)
    ensures r.Ok? ==> Advances(st, r.value.st) && !r.value.done
  {
    var o :- OctalLoop(st, 0, 0);
    if o.v > 255 then Err(OctalTooBig(o.v))
    else
      var st' :- GetCharF(o.st);
      Ok(QOut(false, acc + [o.v], st'))
  }

  /** An \xhh escape: exactly two hex digits. */
  function HexEscapeF(st: InState, acc: seq<byte>): (r: Result<QOut>)
    requires ValidIn(st)
    ensures r.Ok? ==> Advances(st, r.value.st) && !r.value.done
  {
    var st1 :- GetCharF(st);
    var h :- HexEscLoop(st1, 0, 0);
    var st' :- GetCharF(h.st);
    Ok(QOut(false, acc + [LowByte(h.v)], st'))
  }

  /** A backslash before a line end: the line end, and the other line-end character of a pair, are dropped. */
  function LineContinuationF(st: InState, acc: seq<byte>): (r: Result<QOut>)
    requires ValidIn(st)
    ensures r.Ok? ==> Advances(st, r.value.st) && !r.value.done && r.value.acc == acc
  {
    var c := st.nextChar;
    var st1 :- GetCharF(st);
    var pair := if c == '\n' as int then '\r' as int else '\n' as int;
    if st1.nextChar != pair then Ok(QOut(false, acc, st1))
    else
      var st' :- GetCharF(st1);
      Ok(QOut(false, acc, st'))
  }

  /**
   * One pass of the body of the quoted-string loop: the closing quote (which
   * must come at the declared length), an escape sequence, or one character.
   */
  function QuotedIteration(st: InState, acc: seq<byte>, length: int): (r: Result<QOut>)
    requires ValidIn(st)
    ensures r.Ok? ==> Advances(st, r.value.st)
    ensures r.Ok? && st.nextChar != EOF ==> StrictlyAdvances(st, r.value.st)
    ensures r.Ok? && r.value.done ==> r.value.acc == acc && (length == -1 || |acc| == length)
    ensures r.Ok? && !r.value.done && st.nextChar != '\\' as int ==> r.value.acc == acc + [LowByte(st.nextChar)]
  {
    if st.nextChar == '"' as int then
      if length == -1 || |acc| == length then
        var st' :- SkipCharF(st, '"');
        Ok(QOut(true, acc, st'))
      else Err(QuotedTooEarly(length))
    else if st.nextChar == '\\' as int then
      var st1 :- GetCharF(st);
      EscapeF(st1, acc)
    else
      var st' :- GetCharF(st);
      Ok(QOut(false, acc + [LowByte(st.nextChar)], st'))
  }

  /**
   * scanQuotedString, corrected: '"', then passes of the loop until the
   * closing quote. Unlike the C code it fails at the end of the input and
   * when the string outgrows its declared length (see QuotedLoopAsWritten).
   */
  function ScanQuotedF(st: InState, acc: seq<byte>, length: int): (r: Result<Scanned<seq<byte>>>)
    requires ValidIn(st)
    ensures r.Ok? ==> Advances(st, r.value.st)
  {
    var st1 :- SkipCharF(st, '"');
    QuotedLoop(st1, acc, length)
  }

  /** The loop of scanQuotedString, corrected. */
  function QuotedLoop(st: InState, acc: seq<byte>, length: int): (r: Result<Scanned<seq<byte>>>)
    requires ValidIn(st)
    ensures r.Ok? ==> Advances(st, r.value.st)
    decreases Measure(st)
  {
    if !(length == -1 || |acc| <= length) then Err(QuotedTooLong(length))
    else if st.nextChar == EOF then Err(UnterminatedQuoted)
    else
      var q :- QuotedIteration(st, acc, length);
      if q.done then Ok(Scanned(q.acc, q.st))
      else QuotedLoop(q.st, q.acc, length)
  }

  /**
   * The loop of scanQuotedString as written, run for at most `fuel` passes
   * (None when the passes run out). It leaves the loop, successfully, as soon
   * as the string is longer than its declared length, and it never stops at
   * the end of the input when no length was declared.
   */
  function QuotedLoopAsWritten(st: InState, acc: seq<byte>, length: int, fuel: nat): Option<Result<Scanned<seq<byte>>>>
    requires ValidIn(st)
    decreases fuel
  {
    if !(length == -1 || |acc| <= length) then Some(Ok(Scanned(acc, st)))
    else if fuel == 0 then None
    else
      match QuotedIteration(st, acc, length)
      case Err(e) => Some(Err(e))
      case Ok(q) => if q.done then Some(Ok(Scanned(q.acc, q.st))) else QuotedLoopAsWritten(q.st, q.acc, length, fuel - 1)
  }

  /** The loop as written gives the same outcome from two points of a run. */
  ghost predicate SameAsWritten(st: InState, acc: seq<byte>, fuel: nat, st': InState, acc': seq<byte>, fuel': nat, length: int)
    requires ValidIn(st) && ValidIn(st')
  {
    QuotedLoopAsWritten(st, acc, length, fuel) == QuotedLoopAsWritten(st', acc', length, fuel')
  }

  /** The warning for a hex or base64 string whose length differs from a declared one. */
  function MismatchWarning(hex: bool, actual: int, length: int): seq<Warning> {
    if actual != length && length >= 0 then
      [if hex then HexLengthMismatch(actual, length) else Base64LengthMismatch(actual, length)]
    else []
  }

  /**
   * scanHexString and scanBase64String: switch to the region width, consume
   * the opening delimiter, copy the decoded characters up to the closing
   * delimiter (which ends the region) and consume it.
   */
  function ScanRegionF(st: InState, acc: seq<byte>, length: int, size: int, delim: char): (r: Result<Scanned<seq<byte>>>)
    requires ValidIn(st) && (size == 4 || size == 6)
    ensures r.Ok? ==> Advances(st, r.value.st)
  {
    var st1 := ChangeInputByteSizeF(st, size);
    assert ValidIn(st1) by { SexpBits.Pow2Values(); }
    var st2 :- SkipCharF(st1, delim);
    var s :- RegionLoop(st2, acc, size, delim);
    var st3 :- SkipCharF(s.st, delim);
    Ok(Scanned(s.v, st3.(warnings := st3.warnings + MismatchWarning(size == 4, |s.v|, length))))
  }

  /** scanHexString */
  function ScanHexF(st: InState, acc: seq<byte>, length: int): (r: Result<Scanned<seq<byte>>>)
    requires ValidIn(st)
    ensures r.Ok? ==> Advances(st, r.value.st)
  {
    ScanRegionF(st, acc, length, 4, '#')
  }

  /** scanBase64String */
  function ScanBase64F(st: InState, acc: seq<byte>, length: int): (r: Result<Scanned<seq<byte>>>)
    requires ValidIn(st)
    ensures r.Ok? ==> Advances(st, r.value.st)
  {
    ScanRegionF(st, acc, length, 6, '|')
  }

  /** The copy loop of scanHexString/scanBase64String: stops at EOF or at the delimiter once the region has ended. */
  function RegionLoop(st: InState, acc: seq<byte>, size: int, delim: char): (r: Result<Scanned<seq<byte>>>)
    requires ValidIn(st)
    ensures r.Ok? ==> Advances(st, r.value.st)
    ensures r.Ok? ==> r.value.st.nextChar == EOF || (r.value.st.nextChar == delim as int && r.value.st.byteSize != size)
    decreases Measure(st)
  {
    if st.nextChar != EOF && (st.nextChar != delim as int || st.byteSize == size) then
      var st' :- GetCharF(st);
      RegionLoop(st', acc + [LowByte(st.nextChar)], size, delim)
    else Ok(Scanned(acc, st))
  }

  /**
   * scanSimpleString: a token, or an optional decimal length followed by a
   * quoted, hex, base64 or verbatim string; a character that starts none of
   * them is fatal. A string of length zero gives a warning.
   */
  function ScanSimpleStringF(st: InState): (r: Result<Scanned<seq<byte>>>)
    requires ValidIn(st)
    ensures r.Ok? ==> StrictlyAdvances(st, r.value.st)
  {
    var st1 :- SkipWhiteSpaceF(st);
    var c := st1.nextChar;
    var s :- if IsTokenChar(c) && !IsDecDigit(c) then ScanTokenF(st1, [])
      else if IsDecDigit(c) || c == '"' as int || c == '#' as int || c == '|' as int || c == ':' as int then
        ScanLengthAndBodyF(st1)
      else Err(IllegalChar(st1.count, c));
    Ok(NoteEmpty(s))
  }

  /** The end of scanSimpleString: a string of length zero gives a warning. */
  function NoteEmpty(s: Scanned<seq<byte>>): Scanned<seq<byte>> {
    Scanned(s.v, s.st.(warnings := s.st.warnings + (if |s.v| == 0 then [ZeroLength] else [])))
  }

  /** The second branch of scanSimpleString: an optional length and then the string it introduces. */
  function ScanLengthAndBodyF(st: InState): (r: Result<Scanned<seq<byte>>>)
    requires ValidIn(st)
    requires IsDecDigit(st.nextChar) || st.nextChar == '"' as int || st.nextChar == '#' as int
      || st.nextChar == '|' as int || st.nextChar == ':' as int
    ensures r.Ok? ==> StrictlyAdvances(st, r.value.st)
  {
    var d :- if IsDecDigit(st.nextChar) then ScanDecimalF(st) else Ok(Scanned(0, st));
    var length: int := if IsDecDigit(st.nextChar) then d.v else -1;
    var st2 := d.st;
    if st2.nextChar == '"' as int then ScanQuotedF(st2, [], length)
    else if st2.nextChar == '#' as int then ScanHexF(st2, [], length)
    else if st2.nextChar == '|' as int then ScanBase64F(st2, [], length)
    else if st2.nextChar == ':' as int then ScanVerbatimF(st2, [], length)
    else
      assert StrictlyAdvances(st, st2) by {
        assert IsDecDigit(st.nextChar);
        DecimalConsumes(st);
      }
      Ok(Scanned([], st2))
  }

  /** A decimal number starting at a digit consumes that digit. */
  lemma DecimalConsumes(st: InState)
    requires ValidIn(st) && IsDecDigit(st.nextChar) && ScanDecimalF(st).Ok?
    ensures StrictlyAdvances(st, ScanDecimalF(st).value.st)
  {
  }

  /** scanString: an optional presentation hint in brackets, then the value. */
  function ScanStringF(st: InState): (r: Result<Scanned<Obj>>)
    requires ValidIn(st)
    ensures r.Ok? ==> StrictlyAdvances(st, r.value.st) && r.value.v.Str?
  {
    if st.nextChar == '[' as int then
      var h :- ScanHintF(st);
      var s :- ScanSimpleStringF(h.st);
      Ok(Scanned(Str(Some(h.v), s.v), s.st))
    else
      var s :- ScanSimpleStringF(st);
      Ok(Scanned(Str(None, s.v), s.st))
  }

  /** The presentation hint of scanString: '[', a simple string, ']', and the white space around it. */
  function ScanHintF(st: InState): (r: Result<Scanned<seq<byte>>>)
    requires ValidIn(st)
    ensures r.Ok? ==> StrictlyAdvances(st, r.value.st)
  {
    var st1 :- SkipCharF(st, '[');
    var h :- ScanSimpleStringF(st1);
    var st2 :- SkipWhiteSpaceF(h.st);
    var st3 :- SkipCharF(st2, ']');
    var st4 :- SkipWhiteSpaceF(st3);
    Ok(Scanned(h.v, st4))
  }

  /**
   * scanObject: a base64-wrapped object `{...}` (the width changes before the
   * brace is consumed, so that what follows it is decoded), a list, or a string.
   */
  function ScanObjectF(st: InState): (r: Result<Scanned<Obj>>)
    requires ValidIn(st)
    ensures r.Ok? ==> StrictlyAdvances(st, r.value.st)
    decreases Measure(st), 1
  {
    var st1 :- SkipWhiteSpaceF(st);
    if st1.nextChar == '{' as int then
      var st2 := ChangeInputByteSizeF(st1, 6);
      assert ValidIn(st2) by { SexpBits.Pow2Values(); }
      var st3 :- SkipCharF(st2, '{');
      var o :- ScanObjectF(st3);
      var st4 :- SkipCharF(o.st, '}');
      Ok(Scanned(o.v, st4))
    else if st1.nextChar == '(' as int then ScanListF(st1)
    else ScanStringF(st1)
  }

  /** scanList: '(' and then elements until ')'; `()` is the empty list. */
  function ScanListF(st: InState): (r: Result<Scanned<Obj>>)
    requires ValidIn(st)
    ensures r.Ok? ==> StrictlyAdvances(st, r.value.st) && r.value.v.List?
    decreases Measure(st), 0
  {
    var st1 :- SkipCharF(st, '(');
    var st2 :- SkipWhiteSpaceF(st1);
    ListFirstF(st2)
  }

  /** The first element of scanList, read before its loop unless the list is empty. */
  function ListFirstF(st: InState): (r: Result<Scanned<Obj>>)
    requires ValidIn(st)
    ensures r.Ok? ==> StrictlyAdvances(st, r.value.st) && r.value.v.List?
    decreases Measure(st), 3
  {
    if st.nextChar == ')' as int then ListLoop(st, [])
    else
      var o :- ScanObjectF(st);
      ListLoop(o.st, [o.v])
  }

  /** The element loop of scanList, with the elements added so far. */
  function ListLoop(st: InState, elems: seq<Obj>): (r: Result<Scanned<Obj>>)
    requires ValidIn(st)
    ensures r.Ok? ==> StrictlyAdvances(st, r.value.st) && r.value.v.List?
    decreases Measure(st), 2
  {
    var st1 :- SkipWhiteSpaceF(st);
    if st1.nextChar == ')' as int then
      var st2 :- SkipCharF(st1, ')');
      Ok(Scanned(List(elems), st2))
    else
      var o :- ScanObjectF(st1);
      ListLoop(o.st, elems + [o.v])
  }
}
