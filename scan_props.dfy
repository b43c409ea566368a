/**
 * What the scanner of sexp-input.c reads from given text: the escape
 * sequences of quoted strings, quoted strings with and without a declared
 * length, tokens, and the two ways the quoted-string loop as written in C
 * differs from the corrected loop the rest of the model uses.
 *
 * Everything is stated through Ahead, the characters the stream has still
 * to deliver, so the lemmas hold wherever the stream is.
 */
module SexpScanProps {
  import opened SexpTypes
  import opened SexpChars
  import opened SexpInput
  import opened SexpScanSpec
  import opened SexpReading
  import opened SexpCanonical
  import SexpRoundTrip

  /** One pass of the quoted loop that goes on with contents acc and the bytes rest ahead. */
  ghost predicate PassTo(r: Result<QOut>, acc: seq<byte>, rest: seq<byte>) {
    r.Ok? && !r.value.done && r.value.acc == acc && ValidIn(r.value.st) && Ahead(r.value.st) == rest
  }

  /** Text a quoted string carries unchanged: no quote and no backslash. */
  predicate Plain(s: seq<byte>) {
    forall i :: 0 <= i < |s| ==> s[i] != Quote && s[i] != Backslash
  }

  /** The three digits of an \ooo escape, read in base 8. */
  function OctalValue(d1: byte, d2: byte, d3: byte): (v: nat)
    requires IsOctalDigit(d1) && IsOctalDigit(d2) && IsOctalDigit(d3)
    ensures v < 512
  {
    (d1 - '0' as int) * 64 + (d2 - '0' as int) * 8 + (d3 - '0' as int)
  }

  /** The other character of a CR LF or LF CR pair. */
  function Partner(e: int): byte {
    if e == LineFeed then CarriageReturn else LineFeed
  }

  // Regrouping a few known bytes in front of the rest.

  lemma Front2(a: byte, b: byte, r: seq<byte>)
    ensures [a, b] + r == [a] + ([b] + r)
  {
  }

  lemma Front3(a: byte, b: byte, c: byte, r: seq<byte>)
    ensures [a, b, c] + r == [a] + ([b, c] + r)
    ensures [b, c] + r == [b] + ([c] + r)
  {
  }

  lemma Front4(a: byte, b: byte, c: byte, d: byte, r: seq<byte>)
    ensures [a, b, c, d] + r == [a] + ([b, c, d] + r)
    ensures [b, c, d] + r == [b] + ([c, d] + r)
    ensures [c, d] + r == [c] + ([d] + r)
  {
  }

  lemma Peel(s: seq<byte>, q: seq<byte>)
    requires |s| > 0
    ensures s + q == [s[0]] + (s[1..] + q)
  {
  }

  lemma AppendFirst(acc: seq<byte>, s: seq<byte>)
    requires |s| > 0
    ensures acc + [s[0]] + s[1..] == acc + s
  {
  }

  lemma EmptyText(acc: seq<byte>, s: seq<byte>, q: seq<byte>)
    requires |s| == 0
    ensures s + q == q && acc + s == acc
  {
  }

  lemma QuoteAssoc(s: seq<byte>, rest: seq<byte>)
    ensures s + [Quote] + rest == s + ([Quote] + rest)
  {
  }

  lemma NoTail(s: seq<byte>)
    ensures s + [] == s && [] + s == s
  {
  }

  // ----- One pass at a backslash -----

  /** Consumes a known first byte: the state the getChar leaves. */
  lemma Next(st: InState, c: byte, t: seq<byte>) returns (st': InState)
    requires ValidIn(st) && Ahead(st) == [c] + t
    ensures st.nextChar == c && GetCharF(st) == Ok(st') && ValidIn(st') && Ahead(st') == t
  {
    Consume(st, c, t);
    st' := GetCharF(st).value;
  }

  /** At a backslash, a pass of the quoted loop is the escape sequence after it. */
  lemma BackslashBranch(st: InState, acc: seq<byte>, length: int)
    requires ValidIn(st) && st.nextChar == Backslash && GetCharF(st).Ok?
    ensures QuotedIteration(st, acc, length) == EscapeF(GetCharF(st).value, acc)
  {
  }

  /** Consumes the backslash of an escape: the state at the character after it. */
  lemma AfterBackslash(st: InState, acc: seq<byte>, length: int, t: seq<byte>) returns (st1: InState)
    requires ValidIn(st) && Ahead(st) == [Backslash] + t
    ensures GetCharF(st) == Ok(st1) && ValidIn(st1) && Ahead(st1) == t
    ensures QuotedIteration(st, acc, length) == EscapeF(st1, acc)
  {
    st1 := Next(st, Backslash, t);
    BackslashBranch(st, acc, length);
  }

  /** A one-character escape. */
  lemma SimpleBranch(st: InState, acc: seq<byte>)
    requires ValidIn(st) && SimpleEscape(st.nextChar).Some? && GetCharF(st).Ok?
    ensures EscapeF(st, acc) == Ok(QOut(false, acc + [SimpleEscape(st.nextChar).value], GetCharF(st).value))
  {
  }

  /** \b \t \v \n \f \r \" \' \\ append the byte they stand for. */
  lemma SimpleEscapeReads(st: InState, acc: seq<byte>, length: int, c: byte, rest: seq<byte>)
    requires ValidIn(st) && Ahead(st) == [Backslash, c] + rest && SimpleEscape(c).Some?
    ensures PassTo(QuotedIteration(st, acc, length), acc + [SimpleEscape(c).value], rest)
  {
    Front2(Backslash, c, rest);
    var st1 := AfterBackslash(st, acc, length, [c] + rest);
    var st2 := Next(st1, c, rest);
    SimpleBranch(st1, acc);
  }

  /** At an octal digit the escape is an octal one. */
  lemma OctalBranch(st: InState, acc: seq<byte>)
    requires ValidIn(st) && IsOctalDigit(st.nextChar)
    ensures EscapeF(st, acc) == OctalEscapeF(st, acc)
  {
    assert SimpleEscape(st.nextChar).None?;
  }

  /** The octal loop over a digit and then a character that is no octal digit. */
  lemma OctalLoopOne(st1: InState, st2: InState, o1: nat)
    requires ValidIn(st1) && IsOctalDigit(st1.nextChar) && GetCharF(st1) == Ok(st2)
    requires !IsOctalDigit(st2.nextChar) && o1 == st1.nextChar - '0' as int
    ensures OctalLoop(st1, 0, 0) == Err(OctalTooShort(o1))
  {
    OctalAt(st1, st2, 0, 0, o1);
    OctalStop(st2, o1, 1);
  }

  /** The octal loop over two digits and then a character that is no octal digit. */
  lemma OctalLoopTwo(st1: InState, st2: InState, st3: InState, o1: nat, v: nat)
    requires ValidIn(st1) && IsOctalDigit(st1.nextChar) && GetCharF(st1) == Ok(st2)
    requires IsOctalDigit(st2.nextChar) && GetCharF(st2) == Ok(st3) && !IsOctalDigit(st3.nextChar)
    requires o1 == st1.nextChar - '0' as int && v == o1 * 8 + (st2.nextChar - '0' as int)
    ensures OctalLoop(st1, 0, 0) == Err(OctalTooShort(v))
  {
    OctalAt(st1, st2, 0, 0, o1);
    OctalAt(st2, st3, o1, 1, v);
    OctalStop(st3, v, 2);
  }

  /** The octal loop over three digits: their value, with the third still current. */
  lemma OctalLoopThree(st1: InState, st2: InState, st3: InState)
    requires ValidIn(st1) && IsOctalDigit(st1.nextChar) && GetCharF(st1) == Ok(st2)
    requires IsOctalDigit(st2.nextChar) && GetCharF(st2) == Ok(st3) && IsOctalDigit(st3.nextChar)
    ensures OctalLoop(st1, 0, 0) == Ok(Scanned(OctalValue(st1.nextChar, st2.nextChar, st3.nextChar), st3))
  {
    var o1 := st1.nextChar - '0' as int;
    var o12 := o1 * 8 + (st2.nextChar - '0' as int);
    var v := OctalValue(st1.nextChar, st2.nextChar, st3.nextChar);
    OctalSteps(st1.nextChar, st2.nextChar, st3.nextChar);
    OctalAt(st1, st2, 0, 0, o1);
    OctalAt(st2, st3, o1, 1, o12);
    OctalDigitLast(st3, o12, v);
  }

  /** The value of three octal digits, accumulated digit by digit. */
  lemma OctalSteps(d1: int, d2: int, d3: int)
    requires IsOctalDigit(d1) && IsOctalDigit(d2) && IsOctalDigit(d3)
    ensures ((d1 - '0' as int) * 8 + (d2 - '0' as int)) * 8 + (d3 - '0' as int) == OctalValue(d1, d2, d3)
  {
  }

  /** The octal loop at one of the first two digits. */
  lemma OctalAt(st: InState, st': InState, val: nat, j: nat, val': nat)
    requires ValidIn(st) && j < 2 && IsOctalDigit(st.nextChar) && GetCharF(st) == Ok(st')
    requires val' == val * 8 + (st.nextChar - '0' as int)
    ensures OctalLoop(st, val, j) == OctalLoop(st', val', j + 1)
  {
  }

  /** The octal loop at a character that is no octal digit, before the third digit. */
  lemma OctalStop(st: InState, val: nat, j: nat)
    requires ValidIn(st) && j < 3 && !IsOctalDigit(st.nextChar)
    ensures OctalLoop(st, val, j) == Err(OctalTooShort(val))
  {
  }

  /** A pass at a backslash and an octal escape whose loop stops after one digit d1. */
  lemma OctalShortOne(st: InState, st1: InState, st2: InState, acc: seq<byte>, length: int, d1: byte)
    requires ValidIn(st) && st.nextChar == Backslash && GetCharF(st) == Ok(st1)
    requires ValidIn(st1) && st1.nextChar == d1 && IsOctalDigit(d1) && GetCharF(st1) == Ok(st2)
    requires !IsOctalDigit(st2.nextChar)
    ensures QuotedIteration(st, acc, length) == Err(OctalTooShort(d1 - '0' as int))
  {
    BackslashBranch(st, acc, length);
    OctalBranch(st1, acc);
    OctalLoopOne(st1, st2, d1 - '0' as int);
    OctalEscapeErr(st1, acc);
  }

  /** A pass at a backslash and an octal escape whose loop stops after two digits d1 d2. */
  lemma OctalShortTwo(st: InState, st1: InState, st2: InState, st3: InState, acc: seq<byte>, length: int, d1: byte, d2: byte)
    requires ValidIn(st) && st.nextChar == Backslash && GetCharF(st) == Ok(st1)
    requires ValidIn(st1) && st1.nextChar == d1 && IsOctalDigit(d1) && GetCharF(st1) == Ok(st2)
    requires st2.nextChar == d2 && IsOctalDigit(d2) && GetCharF(st2) == Ok(st3) && !IsOctalDigit(st3.nextChar)
    ensures QuotedIteration(st, acc, length) == Err(OctalTooShort((d1 - '0' as int) * 8 + (d2 - '0' as int)))
  {
    BackslashBranch(st, acc, length);
    OctalBranch(st1, acc);
    OctalLoopTwo(st1, st2, st3, d1 - '0' as int, (d1 - '0' as int) * 8 + (d2 - '0' as int));
    OctalEscapeErr(st1, acc);
  }

  /** No octal digit comes next. */
  lemma NoOctalNext(st: InState, rest: seq<byte>)
    requires ValidIn(st) && Ahead(st) == rest && (|rest| == 0 || !IsOctalDigit(rest[0]))
    ensures !IsOctalDigit(st.nextChar)
  {
    Current(st);
  }

  /** The octal loop at the third digit, which stays current. */
  lemma OctalDigitLast(st: InState, val: nat, val': nat)
    requires ValidIn(st) && IsOctalDigit(st.nextChar) && val' == val * 8 + (st.nextChar - '0' as int)
    ensures OctalLoop(st, val, 2) == Ok(Scanned(val', st))
  {
  }

  /** An octal escape whose loop fails fails with it. */
  lemma OctalEscapeErr(st: InState, acc: seq<byte>)
    requires ValidIn(st) && OctalLoop(st, 0, 0).Err?
    ensures OctalEscapeF(st, acc) == Err(OctalLoop(st, 0, 0).error)
  {
  }

  /** An octal escape whose value is above 255 is fatal. */
  lemma OctalEscapeBig(st: InState, acc: seq<byte>)
    requires ValidIn(st) && OctalLoop(st, 0, 0).Ok? && OctalLoop(st, 0, 0).value.v > 255
    ensures OctalEscapeF(st, acc) == Err(OctalTooBig(OctalLoop(st, 0, 0).value.v))
  {
  }

  /** An octal escape whose value is a byte appends it. */
  lemma OctalEscapeByte(st: InState, acc: seq<byte>, st': InState)
    requires ValidIn(st) && OctalLoop(st, 0, 0).Ok? && OctalLoop(st, 0, 0).value.v <= 255
    requires GetCharF(OctalLoop(st, 0, 0).value.st) == Ok(st')
    ensures OctalEscapeF(st, acc) == Ok(QOut(false, acc + [OctalLoop(st, 0, 0).value.v], st'))
  {
  }

  /**
   * An \ooo escape of three octal digits appends their value when it is at
   * most 255 and is fatal above.
   */
  lemma OctalEscapeReads(st: InState, acc: seq<byte>, length: int, d1: byte, d2: byte, d3: byte, rest: seq<byte>)
    requires ValidIn(st) && Ahead(st) == [Backslash, d1, d2, d3] + rest
    requires IsOctalDigit(d1) && IsOctalDigit(d2) && IsOctalDigit(d3)
    ensures OctalValue(d1, d2, d3) <= 255 ==>
      PassTo(QuotedIteration(st, acc, length), acc + [OctalValue(d1, d2, d3)], rest)
    ensures OctalValue(d1, d2, d3) > 255 ==>
      QuotedIteration(st, acc, length) == Err(OctalTooBig(OctalValue(d1, d2, d3)))
  {
    Front4(Backslash, d1, d2, d3, rest);
    var st1 := AfterBackslash(st, acc, length, [d1, d2, d3] + rest);
    var st2 := Next(st1, d1, [d2, d3] + rest);
    var st3 := Next(st2, d2, [d3] + rest);
    var st4 := Next(st3, d3, rest);
    OctalBranch(st1, acc);
    OctalLoopThree(st1, st2, st3);
    if OctalValue(d1, d2, d3) <= 255 {
      OctalEscapeByte(st1, acc, st4);
    } else {
      OctalEscapeBig(st1, acc);
    }
  }

  /** An \o escape whose second character is no octal digit is fatal. */
  lemma OctalOneDigit(st: InState, acc: seq<byte>, length: int, d1: byte, rest: seq<byte>)
    requires ValidIn(st) && Ahead(st) == [Backslash, d1] + rest && IsOctalDigit(d1)
    requires |rest| == 0 || !IsOctalDigit(rest[0])
    ensures QuotedIteration(st, acc, length) == Err(OctalTooShort(d1 - '0' as int))
  {
    Front2(Backslash, d1, rest);
    var st1 := Next(st, Backslash, [d1] + rest);
    var st2 := Next(st1, d1, rest);
    NoOctalNext(st2, rest);
    OctalShortOne(st, st1, st2, acc, length, d1);
  }

  /** An \oo escape whose third character is no octal digit is fatal. */
  lemma OctalTwoDigits(st: InState, acc: seq<byte>, length: int, d1: byte, d2: byte, rest: seq<byte>)
    requires ValidIn(st) && Ahead(st) == [Backslash, d1, d2] + rest && IsOctalDigit(d1) && IsOctalDigit(d2)
    requires |rest| == 0 || !IsOctalDigit(rest[0])
    ensures QuotedIteration(st, acc, length) == Err(OctalTooShort((d1 - '0' as int) * 8 + (d2 - '0' as int)))
  {
    Front3(Backslash, d1, d2, rest);
    var st1 := Next(st, Backslash, [d1, d2] + rest);
    var st2 := Next(st1, d1, [d2] + rest);
    var st3 := Next(st2, d2, rest);
    NoOctalNext(st3, rest);
    OctalShortTwo(st, st1, st2, st3, acc, length, d1, d2);
  }

  /** At an x the escape is a hex one. */
  lemma HexBranch(st: InState, acc: seq<byte>)
    requires ValidIn(st) && st.nextChar == 'x' as int
    ensures EscapeF(st, acc) == HexEscapeF(st, acc)
  {
    assert SimpleEscape(st.nextChar).None? && !IsOctalDigit(st.nextChar);
  }

  /** The hex loop at a character that is no hex digit. */
  lemma HexLoopNone(st2: InState)
    requires ValidIn(st2) && !IsHexDigit(st2.nextChar)
    ensures HexEscLoop(st2, 0, 0) == Err(HexEscapeTooShort(0))
  {
  }

  /** The hex loop over a digit and then a character that is no hex digit. */
  lemma HexLoopOne(st2: InState, st3: InState)
    requires ValidIn(st2) && IsHexDigit(st2.nextChar) && GetCharF(st2) == Ok(st3)
    requires !IsHexDigit(st3.nextChar)
    ensures HexEscLoop(st2, 0, 0) == Err(HexEscapeTooShort(HexValue(st2.nextChar)))
  {
  }

  /** The hex loop over two digits: their value, with the second still current. */
  lemma HexLoopTwo(st2: InState, st3: InState, h: nat, v: nat)
    requires ValidIn(st2) && IsHexDigit(st2.nextChar) && GetCharF(st2) == Ok(st3)
    requires IsHexDigit(st3.nextChar)
    requires h == HexValue(st2.nextChar) && v == 16 * h + HexValue(st3.nextChar)
    ensures HexEscLoop(st2, 0, 0) == Ok(Scanned(v, st3))
  {
    HexFirst(st2, st3, h);
    HexLast(st3, h, v);
  }

  /** The hex loop at its first digit. */
  lemma HexFirst(st: InState, st': InState, h: nat)
    requires ValidIn(st) && IsHexDigit(st.nextChar) && GetCharF(st) == Ok(st') && h == HexValue(st.nextChar)
    ensures HexEscLoop(st, 0, 0) == HexEscLoop(st', h, 1)
  {
  }

  /** The hex loop at its second digit, which stays current. */
  lemma HexLast(st: InState, h: nat, v: nat)
    requires ValidIn(st) && IsHexDigit(st.nextChar) && v == 16 * h + HexValue(st.nextChar)
    ensures HexEscLoop(st, h, 1) == Ok(Scanned(v, st))
  {
  }

  /** A hex escape whose loop fails fails with it. */
  lemma HexEscapeErr(st: InState, acc: seq<byte>, st2: InState)
    requires ValidIn(st) && GetCharF(st) == Ok(st2) && HexEscLoop(st2, 0, 0).Err?
    ensures HexEscapeF(st, acc) == Err(HexEscLoop(st2, 0, 0).error)
  {
  }

  /** A hex escape whose loop succeeds appends the low byte of its value. */
  lemma HexEscapeByte(st: InState, acc: seq<byte>, st2: InState, st': InState)
    requires ValidIn(st) && GetCharF(st) == Ok(st2) && HexEscLoop(st2, 0, 0).Ok?
    requires GetCharF(HexEscLoop(st2, 0, 0).value.st) == Ok(st')
    ensures HexEscapeF(st, acc) == Ok(QOut(false, acc + [LowByte(HexEscLoop(st2, 0, 0).value.v)], st'))
  {
  }

  /** An \xhh escape of two hex digits appends their value. */
  lemma HexEscapeReads(st: InState, acc: seq<byte>, length: int, h1: byte, h2: byte, rest: seq<byte>)
    requires ValidIn(st) && Ahead(st) == [Backslash, 'x' as int, h1, h2] + rest
    requires IsHexDigit(h1) && IsHexDigit(h2)
    ensures PassTo(QuotedIteration(st, acc, length), acc + [16 * HexValue(h1) + HexValue(h2)], rest)
  {
    Front4(Backslash, 'x' as int, h1, h2, rest);
    var st1 := AfterBackslash(st, acc, length, ['x' as int, h1, h2] + rest);
    var st2 := Next(st1, 'x' as int, [h1, h2] + rest);
    var st3 := Next(st2, h1, [h2] + rest);
    var st4 := Next(st3, h2, rest);
    HexBranch(st1, acc);
    var v := 16 * HexValue(h1) + HexValue(h2);
    HexLoopTwo(st2, st3, HexValue(h1), v);
    assert LowByte(v) == v;
    HexEscapeByte(st1, acc, st2, st4);
  }

  /** An \x escape with no hex digit after it is fatal. */
  lemma HexNoDigit(st: InState, acc: seq<byte>, length: int, rest: seq<byte>)
    requires ValidIn(st) && Ahead(st) == [Backslash, 'x' as int] + rest
    requires |rest| == 0 || !IsHexDigit(rest[0])
    ensures QuotedIteration(st, acc, length) == Err(HexEscapeTooShort(0))
  {
    Front2(Backslash, 'x' as int, rest);
    var st1 := AfterBackslash(st, acc, length, ['x' as int] + rest);
    var st2 := Next(st1, 'x' as int, rest);
    Current(st2);
    HexBranch(st1, acc);
    HexLoopNone(st2);
    HexEscapeErr(st1, acc, st2);
  }

  /** An \xh escape whose second character is no hex digit is fatal. */
  lemma HexOneDigit(st: InState, acc: seq<byte>, length: int, h1: byte, rest: seq<byte>)
    requires ValidIn(st) && Ahead(st) == [Backslash, 'x' as int, h1] + rest && IsHexDigit(h1)
    requires |rest| == 0 || !IsHexDigit(rest[0])
    ensures QuotedIteration(st, acc, length) == Err(HexEscapeTooShort(HexValue(h1)))
  {
    Front3(Backslash, 'x' as int, h1, rest);
    var st1 := AfterBackslash(st, acc, length, ['x' as int, h1] + rest);
    var st2 := Next(st1, 'x' as int, [h1] + rest);
    var st3 := Next(st2, h1, rest);
    Current(st3);
    HexBranch(st1, acc);
    HexLoopOne(st2, st3);
    HexEscapeErr(st1, acc, st2);
  }

  /** At a line end the escape is a line continuation. */
  lemma LineEndBranch(st: InState, acc: seq<byte>)
    requires ValidIn(st) && (st.nextChar == LineFeed || st.nextChar == CarriageReturn)
    ensures EscapeF(st, acc) == LineContinuationF(st, acc)
  {
    assert SimpleEscape(st.nextChar).None? && !IsOctalDigit(st.nextChar);
  }

  /** A line continuation whose line end is not followed by its partner. */
  lemma LineSingle(st: InState, acc: seq<byte>)
    requires ValidIn(st) && (st.nextChar == LineFeed || st.nextChar == CarriageReturn) && GetCharF(st).Ok?
    requires GetCharF(st).value.nextChar != Partner(st.nextChar)
    ensures LineContinuationF(st, acc) == Ok(QOut(false, acc, GetCharF(st).value))
  {
  }

  /** A line continuation over a CR LF or LF CR pair. */
  lemma LinePair(st: InState, acc: seq<byte>)
    requires ValidIn(st) && (st.nextChar == LineFeed || st.nextChar == CarriageReturn) && GetCharF(st).Ok?
    requires GetCharF(st).value.nextChar == Partner(st.nextChar) && GetCharF(GetCharF(st).value).Ok?
    ensures LineContinuationF(st, acc) == Ok(QOut(false, acc, GetCharF(GetCharF(st).value).value))
  {
  }

  /** A backslash before a lone line end drops both and appends nothing. */
  lemma LineContinuationReads(st: InState, acc: seq<byte>, length: int, e: byte, rest: seq<byte>)
    requires ValidIn(st) && (e == LineFeed || e == CarriageReturn)
    requires Ahead(st) == [Backslash, e] + rest
    requires |rest| == 0 || rest[0] != Partner(e)
    ensures PassTo(QuotedIteration(st, acc, length), acc, rest)
  {
    Front2(Backslash, e, rest);
    var st1 := AfterBackslash(st, acc, length, [e] + rest);
    var st2 := Next(st1, e, rest);
    Current(st2);
    LineEndBranch(st1, acc);
    LineSingle(st1, acc);
  }

  /** A backslash before a CR LF or LF CR pair drops all three and appends nothing. */
  lemma LineContinuationPairReads(st: InState, acc: seq<byte>, length: int, e: byte, rest: seq<byte>)
    requires ValidIn(st) && (e == LineFeed || e == CarriageReturn)
    requires Ahead(st) == [Backslash, e, Partner(e)] + rest
    ensures PassTo(QuotedIteration(st, acc, length), acc, rest)
  {
    Front3(Backslash, e, Partner(e), rest);
    var st1 := AfterBackslash(st, acc, length, [e, Partner(e)] + rest);
    var st2 := Next(st1, e, [Partner(e)] + rest);
    var st3 := Next(st2, Partner(e), rest);
    LineEndBranch(st1, acc);
    LinePair(st1, acc);
  }

  /** At any other character the escape is unknown. */
  lemma UnknownBranch(st: InState, acc: seq<byte>)
    requires ValidIn(st)
    requires SimpleEscape(st.nextChar).None? && !IsOctalDigit(st.nextChar) && st.nextChar != 'x' as int
    requires st.nextChar != LineFeed && st.nextChar != CarriageReturn
    requires GetCharF(st.(warnings := st.warnings + [UnknownEscape(st.nextChar)])).Ok?
    ensures EscapeF(st, acc) ==
      Ok(QOut(false, acc, GetCharF(st.(warnings := st.warnings + [UnknownEscape(st.nextChar)])).value))
  {
  }

  /**
   * A backslash before any other character drops both, appends nothing and
   * records an unknown-escape warning (in the 8-bit text where quoted
   * strings occur, nothing else adds a warning).
   */
  lemma UnknownEscapeReads(st: InState, acc: seq<byte>, length: int, c: byte, rest: seq<byte>)
    requires ValidIn(st) && st.byteSize == 8 && Ahead(st) == [Backslash, c] + rest
    requires SimpleEscape(c).None? && !IsOctalDigit(c) && c != 'x' as int
    requires c != LineFeed && c != CarriageReturn
    ensures PassTo(QuotedIteration(st, acc, length), acc, rest)
    ensures QuotedIteration(st, acc, length).value.st.warnings == st.warnings + [UnknownEscape(c)]
  {
    Front2(Backslash, c, rest);
    var st1 := AfterBackslash(st, acc, length, [c] + rest);
    EightBitGetChar(st);
    var w := st1.(warnings := st1.warnings + [UnknownEscape(c)]);
    AheadIgnoresWarnings(st1, w);
    var st2 := Next(w, c, rest);
    EightBitGetChar(w);
    UnknownBranch(st1, acc);
  }

  // ----- Quoted strings -----

  /** A pass at any character but a quote or a backslash appends it. */
  lemma PlainBranch(st: InState, acc: seq<byte>, length: int)
    requires ValidIn(st) && st.nextChar != EOF && st.nextChar != Quote && st.nextChar != Backslash
    requires GetCharF(st).Ok?
    ensures QuotedIteration(st, acc, length) == Ok(QOut(false, acc + [LowByte(st.nextChar)], GetCharF(st).value))
  {
  }

  /** The corrected loop, after a pass that did not close the string. */
  lemma LoopStep(st: InState, acc: seq<byte>, length: int)
    requires ValidIn(st) && (length == -1 || |acc| <= length) && st.nextChar != EOF
    requires QuotedIteration(st, acc, length).Ok? && !QuotedIteration(st, acc, length).value.done
    ensures QuotedLoop(st, acc, length) ==
      QuotedLoop(QuotedIteration(st, acc, length).value.st, QuotedIteration(st, acc, length).value.acc, length)
  {
  }

  /** The loop as written, after a pass that did not close the string. */
  lemma AsWrittenStep(st: InState, acc: seq<byte>, length: int, fuel: nat, fuel1: nat, q: QOut)
    requires ValidIn(st) && (length == -1 || |acc| <= length) && fuel1 == fuel - 1
    requires st.nextChar != Quote && st.nextChar != Backslash
    requires QuotedIteration(st, acc, length) == Ok(q) && !q.done
    ensures ValidIn(q.st) && QuotedLoopAsWritten(st, acc, length, fuel) == QuotedLoopAsWritten(q.st, q.acc, length, fuel1)
  {
  }

  /** Consumes one plain byte: the state after it, and what the pass appends. */
  lemma PlainByte(st: InState, acc: seq<byte>, length: int, s: seq<byte>, q: seq<byte>) returns (st': InState)
    requires ValidIn(st) && Ahead(st) == s + q && |s| > 0 && s[0] != Quote && s[0] != Backslash
    ensures ValidIn(st') && Ahead(st') == s[1..] + q && st.nextChar == s[0]
    ensures QuotedIteration(st, acc, length) == Ok(QOut(false, acc + [s[0]], st'))
  {
    Peel(s, q);
    Consume(st, s[0], s[1..] + q);
    st' := GetCharF(st).value;
    PlainBranch(st, acc, length);
  }

  /** The corrected loop over one plain byte. */
  lemma LoopPlain(st: InState, acc: seq<byte>, length: int, s: seq<byte>, q: seq<byte>) returns (st': InState)
    requires ValidIn(st) && Ahead(st) == s + q && |s| > 0 && s[0] != Quote && s[0] != Backslash
    requires length == -1 || |acc| <= length
    ensures ValidIn(st') && Ahead(st') == s[1..] + q
    ensures QuotedLoop(st, acc, length) == QuotedLoop(st', acc + [s[0]], length)
  {
    st' := PlainByte(st, acc, length, s, q);
    LoopStep(st, acc, length);
  }

  /** The loop as written over one plain byte, with `fuel1` passes left after it. */
  lemma AsWrittenPlain(st: InState, acc: seq<byte>, length: int, fuel: nat, fuel1: nat, s: seq<byte>, q: seq<byte>)
      returns (st': InState)
    requires ValidIn(st) && Ahead(st) == s + q && |s| > 0 && s[0] != Quote && s[0] != Backslash
    requires (length == -1 || |acc| <= length) && fuel1 == fuel - 1
    ensures ValidIn(st') && Ahead(st') == s[1..] + q
    ensures SameAsWritten(st, acc, fuel, st', acc + [s[0]], fuel1, length)
  {
    st' := PlainByte(st, acc, length, s, q);
    AsWrittenStep(st, acc, length, fuel, fuel1, QOut(false, acc + [s[0]], st'));
  }

  /** The tail of plain text is plain. */
  lemma PlainTail(s: seq<byte>)
    requires |s| > 0 && Plain(s)
    ensures Plain(s[1..]) && s[0] != Quote && s[0] != Backslash
  {
    assert s[0] == s[0];
    forall i | 0 <= i < |s[1..]| ensures s[1..][i] != Quote && s[1..][i] != Backslash {
      assert s[1..][i] == s[i + 1];
    }
  }

  /** Both parts of plain text split anywhere are plain. */
  lemma PlainSplit(s: seq<byte>, k: nat)
    requires Plain(s) && k <= |s|
    ensures Plain(s[..k]) && Plain(s[k..]) && s == s[..k] + s[k..]
  {
    forall i | 0 <= i < |s[..k]| ensures s[..k][i] != Quote && s[..k][i] != Backslash {
      assert s[..k][i] == s[i];
    }
    forall i | 0 <= i < |s[k..]| ensures s[k..][i] != Quote && s[k..][i] != Backslash {
      assert s[k..][i] == s[k + i];
    }
  }

  /** The corrected loop over a run of plain bytes that stays within the declared length. */
  lemma {:induction false} LoopRun(st: InState, acc: seq<byte>, length: int, s: seq<byte>, q: seq<byte>)
      returns (st': InState)
    requires ValidIn(st) && Ahead(st) == s + q && Plain(s)
    requires length == -1 || |acc| + |s| <= length + 1
    ensures ValidIn(st') && Ahead(st') == q
    ensures QuotedLoop(st, acc, length) == QuotedLoop(st', acc + s, length)
    decreases |s|
  {
    if |s| == 0 {
      EmptyText(acc, s, q);
      st' := st;
    } else {
      PlainTail(s);
      var st1 := LoopPlain(st, acc, length, s, q);
      st' := LoopRun(st1, acc + [s[0]], length, s[1..], q);
      AppendFirst(acc, s);
    }
  }

  /** The loop as written over a run of plain bytes, within the declared length, with `left` passes left after it. */
  lemma {:induction false} AsWrittenRun(st: InState, acc: seq<byte>, length: int, fuel: nat, left: nat, s: seq<byte>, q: seq<byte>)
      returns (st': InState)
    requires ValidIn(st) && Ahead(st) == s + q && Plain(s)
    requires (length == -1 || |acc| + |s| <= length + 1) && left == fuel - |s|
    ensures ValidIn(st') && Ahead(st') == q
    ensures SameAsWritten(st, acc, fuel, st', acc + s, left, length)
    decreases |s|
  {
    if |s| == 0 {
      EmptyText(acc, s, q);
      st' := st;
      AsWrittenSame(st, acc, acc + s, fuel, left, length);
    } else {
      PlainTail(s);
      var fuel1: nat := fuel - 1;
      var st1 := AsWrittenPlain(st, acc, length, fuel, fuel1, s, q);
      st' := AsWrittenRun(st1, acc + [s[0]], length, fuel1, left, s[1..], q);
      AsWrittenJoin(st, st1, st', acc, s, length, fuel, fuel1, left);
    }
  }

  /** The loop as written from the same point with the same fuel. */
  lemma AsWrittenSame(st: InState, acc: seq<byte>, acc': seq<byte>, fuel: nat, fuel': nat, length: int)
    requires ValidIn(st) && acc' == acc && fuel' == fuel
    ensures SameAsWritten(st, acc, fuel, st, acc', fuel', length)
  {
  }

  /** Joins the pass over the first byte of a run to the passes over the rest. */
  lemma AsWrittenJoin(st: InState, st1: InState, st': InState, acc: seq<byte>, s: seq<byte>, length: int, fuel: nat, fuel1: nat, left: nat)
    requires ValidIn(st) && ValidIn(st1) && ValidIn(st') && |s| > 0
    requires SameAsWritten(st, acc, fuel, st1, acc + [s[0]], fuel1, length)
    requires SameAsWritten(st1, acc + [s[0]], fuel1, st', acc + [s[0]] + s[1..], left, length)
    ensures SameAsWritten(st, acc, fuel, st', acc + s, left, length)
  {
    AppendFirst(acc, s);
  }

  /** The corrected loop at a closing quote that comes at the declared length. */
  lemma LoopCloses(st: InState, acc: seq<byte>, length: int)
    requires ValidIn(st) && st.nextChar == Quote && (length == -1 || |acc| == length) && GetCharF(st).Ok?
    ensures QuotedLoop(st, acc, length) == Ok(Scanned(acc, GetCharF(st).value))
  {
  }

  /** The corrected loop at a closing quote that comes before the declared length. */
  lemma LoopEarly(st: InState, acc: seq<byte>, length: int)
    requires ValidIn(st) && st.nextChar == Quote && |acc| < length
    ensures QuotedLoop(st, acc, length) == Err(QuotedTooEarly(length))
  {
  }

  /** The corrected loop once the string is longer than its declared length. */
  lemma LoopOverflow(st: InState, acc: seq<byte>, length: int)
    requires ValidIn(st) && 0 <= length < |acc|
    ensures QuotedLoop(st, acc, length) == Err(QuotedTooLong(length))
  {
  }

  /** The corrected loop at the end of the input, with no declared length or one not yet exceeded. */
  lemma LoopAtEof(st: InState, acc: seq<byte>, length: int)
    requires ValidIn(st) && st.nextChar == EOF && (length == -1 || |acc| <= length)
    ensures QuotedLoop(st, acc, length) == Err(UnterminatedQuoted)
  {
  }

  /** The loop as written once the string is longer than its declared length. */
  lemma AsWrittenOverflow(st: InState, acc: seq<byte>, length: int, fuel: nat)
    requires ValidIn(st) && 0 <= length < |acc|
    ensures QuotedLoopAsWritten(st, acc, length, fuel) == Some(Ok(Scanned(acc, st)))
  {
  }

  /**
   * Plain text up to a closing quote reads back when no length was declared
   * or when the declared length is the length of the text.
   */
  lemma QuotedLoopReads(st: InState, acc: seq<byte>, length: int, s: seq<byte>, rest: seq<byte>)
    requires ValidIn(st) && Ahead(st) == s + [Quote] + rest && Plain(s)
    requires length == -1 || |acc| + |s| == length
    ensures ReadsTo(QuotedLoop(st, acc, length), acc + s, rest)
  {
    QuoteAssoc(s, rest);
    var st1 := LoopRun(st, acc, length, s, [Quote] + rest);
    var st2 := Next(st1, Quote, rest);
    LoopCloses(st1, acc + s, length);
  }

  /** A closing quote before the declared length is fatal. */
  lemma QuotedTooEarlyReads(st: InState, acc: seq<byte>, length: int, s: seq<byte>, rest: seq<byte>)
    requires ValidIn(st) && Ahead(st) == s + [Quote] + rest && Plain(s)
    requires |acc| + |s| < length
    ensures QuotedLoop(st, acc, length) == Err(QuotedTooEarly(length))
  {
    QuoteAssoc(s, rest);
    var st1 := LoopRun(st, acc, length, s, [Quote] + rest);
    var st2 := Next(st1, Quote, rest);
    LoopEarly(st1, acc + s, length);
  }

  /**
   * More plain bytes than the declared length before the closing quote:
   * the corrected loop fails as soon as the string outgrows its length,
   * whatever follows.
   */
  lemma QuotedTooLongReads(st: InState, acc: seq<byte>, length: int, s: seq<byte>, rest: seq<byte>)
    requires ValidIn(st) && Ahead(st) == s + rest && Plain(s)
    requires 0 <= length && |acc| + |s| == length + 1
    ensures QuotedLoop(st, acc, length) == Err(QuotedTooLong(length))
  {
    var st1 := LoopRun(st, acc, length, s, rest);
    LoopOverflow(st1, acc + s, length);
  }

  /**
   * The same input for the loop as written: it leaves the loop successfully
   * with one byte more than the declared length and leaves the rest of the
   * string, closing quote included, unread.
   */
  lemma QuotedOverrunAsWritten(st: InState, acc: seq<byte>, length: int, s: seq<byte>, rest: seq<byte>, fuel: nat)
    requires ValidIn(st) && Ahead(st) == s + rest && Plain(s)
    requires 0 <= length && |acc| + |s| == length + 1 && fuel >= |s|
    ensures QuotedLoopAsWritten(st, acc, length, fuel).Some?
    ensures ReadsTo(QuotedLoopAsWritten(st, acc, length, fuel).value, acc + s, rest)
  {
    var left: nat := fuel - |s|;
    var st1 := AsWrittenRun(st, acc, length, fuel, left, s, rest);
    AsWrittenOverflow(st1, acc + s, length, left);
  }

  /**
   * The input 3"abcd": after the opening quote, the loop as written reads
   * the four bytes abcd for a declared length of 3, while the corrected
   * loop rejects the string.
   */
  lemma TooLongExample(st: InState)
    requires ValidIn(st) && Ahead(st) == ['a' as int, 'b' as int, 'c' as int, 'd' as int, Quote]
    ensures QuotedLoop(st, [], 3) == Err(QuotedTooLong(3))
    ensures QuotedLoopAsWritten(st, [], 3, 4).Some?
    ensures ReadsTo(QuotedLoopAsWritten(st, [], 3, 4).value, ['a' as int, 'b' as int, 'c' as int, 'd' as int], [Quote])
  {
    var s: seq<byte> := ['a' as int, 'b' as int, 'c' as int, 'd' as int];
    TooLongText(s);
    QuotedTooLongReads(st, [], 3, s, [Quote]);
    QuotedOverrunAsWritten(st, [], 3, s, [Quote], 4);
  }

  /** The bytes abcd of the example: plain, four of them, and followed by the closing quote in its input. */
  lemma TooLongText(s: seq<byte>)
    requires s == ['a' as int, 'b' as int, 'c' as int, 'd' as int]
    ensures s + [Quote] == ['a' as int, 'b' as int, 'c' as int, 'd' as int, Quote]
    ensures Plain(s) && |s| == 4 && [] + s == s
  {
  }

  /**
   * Plain text up to the end of the input, with no declared length or one
   * the text does not exceed: the corrected loop fails.
   */
  lemma UnterminatedReads(st: InState, acc: seq<byte>, length: int, s: seq<byte>)
    requires ValidIn(st) && Ahead(st) == s && Plain(s)
    requires length == -1 || |acc| + |s| <= length
    ensures QuotedLoop(st, acc, length) == Err(UnterminatedQuoted)
  {
    NoTail(s);
    var st1 := LoopRun(st, acc, length, s, []);
    Current(st1);
    LoopAtEof(st1, acc + s, length);
  }

  /** At the end of the input the loop as written appends byte 255 on every pass and never stops. */
  lemma {:induction false} AtEofAsWritten(st: InState, acc: seq<byte>, fuel: nat)
    requires ValidIn(st) && st.nextChar == EOF
    ensures QuotedLoopAsWritten(st, acc, -1, fuel) == None
    decreases fuel
  {
    if fuel > 0 {
      EofIsSticky(st);
      var st' := GetCharF(st).value;
      assert QuotedIteration(st, acc, -1) == Ok(QOut(false, acc + [LowByte(EOF)], st'));
      var fuel1: nat := fuel - 1;
      AsWrittenStep(st, acc, -1, fuel, fuel1, QOut(false, acc + [LowByte(EOF)], st'));
      AtEofAsWritten(st', acc + [LowByte(EOF)], fuel1);
    }
  }

  /**
   * The same input for the loop as written: however many passes it is
   * given, it has not finished (the C loop does not terminate).
   */
  lemma UnterminatedAsWritten(st: InState, acc: seq<byte>, s: seq<byte>, fuel: nat)
    requires ValidIn(st) && Ahead(st) == s && Plain(s)
    ensures QuotedLoopAsWritten(st, acc, -1, fuel) == None
  {
    if fuel >= |s| {
      NoTail(s);
      var left: nat := fuel - |s|;
      var st1 := AsWrittenRun(st, acc, -1, fuel, left, s, []);
      Current(st1);
      AtEofAsWritten(st1, acc + s, left);
    } else {
      PlainSplit(s, fuel);
      var st1 := AsWrittenRun(st, acc, -1, fuel, 0, s[..fuel], s[fuel..]);
    }
  }

  /** n bytes of value 255: what the loop as written appends for n passes at the end of the input. */
  function EofBytes(n: nat): (r: seq<byte>)
    ensures |r| == n && forall i :: 0 <= i < n ==> r[i] == LowByte(EOF)
  {
    if n == 0 then [] else [LowByte(EOF)] + EofBytes(n - 1)
  }

  /**
   * At the end of the input, with a declared length not yet exceeded, the
   * loop as written appends byte 255 on each pass until the string is one
   * byte longer than its length, and then leaves the loop successfully.
   */
  lemma {:induction false} AtEofLengthAsWritten(st: InState, acc: seq<byte>, length: int, n: nat, fuel: nat)
    requires ValidIn(st) && st.nextChar == EOF
    requires 0 <= length && |acc| + n == length + 1 && fuel >= n
    ensures QuotedLoopAsWritten(st, acc, length, fuel).Some?
    ensures ReadsTo(QuotedLoopAsWritten(st, acc, length, fuel).value, acc + EofBytes(n), [])
    decreases n
  {
    if n == 0 {
      AsWrittenOverflow(st, acc, length, fuel);
      assert acc + EofBytes(0) == acc;
    } else {
      EofIsSticky(st);
      var st' := GetCharF(st).value;
      assert QuotedIteration(st, acc, length) == Ok(QOut(false, acc + [LowByte(EOF)], st'));
      var fuel1: nat := fuel - 1;
      var n1: nat := n - 1;
      AsWrittenStep(st, acc, length, fuel, fuel1, QOut(false, acc + [LowByte(EOF)], st'));
      AtEofLengthAsWritten(st', acc + [LowByte(EOF)], length, n1, fuel1);
      EofBytesFront(acc, n, n1);
    }
  }

  /** One byte 255 in front of n - 1 more. */
  lemma EofBytesFront(acc: seq<byte>, n: nat, n1: nat)
    requires n == n1 + 1
    ensures acc + [LowByte(EOF)] + EofBytes(n1) == acc + EofBytes(n)
  {
  }

  /**
   * The same input with a declared length the text does not reach, for the
   * loop as written: it pads the string with bytes 255 to one more than the
   * declared length and returns it, with nothing left to read.
   */
  lemma UnterminatedLengthAsWritten(st: InState, acc: seq<byte>, length: int, s: seq<byte>, n: nat, fuel: nat)
    requires ValidIn(st) && Ahead(st) == s && Plain(s)
    requires 0 <= length && |acc| + |s| + n == length + 1 && fuel >= |s| + n
    ensures QuotedLoopAsWritten(st, acc, length, fuel).Some?
    ensures ReadsTo(QuotedLoopAsWritten(st, acc, length, fuel).value, acc + s + EofBytes(n), [])
  {
    NoTail(s);
    var left: nat := fuel - |s|;
    var st1 := AsWrittenRun(st, acc, length, fuel, left, s, []);
    Current(st1);
    AtEofLengthAsWritten(st1, acc + s, length, n, left);
  }

  /**
   * The input 3"ab and then the end of the input: after the opening quote,
   * the loop as written returns the four bytes a, b, 255, 255, while the
   * corrected loop rejects the unterminated string.
   */
  lemma UnterminatedLengthExample(st: InState)
    requires ValidIn(st) && Ahead(st) == ['a' as int, 'b' as int]
    ensures QuotedLoop(st, [], 3) == Err(UnterminatedQuoted)
    ensures QuotedLoopAsWritten(st, [], 3, 4).Some?
    ensures ReadsTo(QuotedLoopAsWritten(st, [], 3, 4).value, ['a' as int, 'b' as int, 255, 255], [])
  {
    var s: seq<byte> := ['a' as int, 'b' as int];
    ShortText(s);
    UnterminatedReads(st, [], 3, s);
    UnterminatedLengthAsWritten(st, [], 3, s, 2, 4);
  }

  /** The bytes ab of the example: plain, two of them, and followed by two bytes 255. */
  lemma ShortText(s: seq<byte>)
    requires s == ['a' as int, 'b' as int]
    ensures Plain(s) && |s| == 2 && [] + s + EofBytes(2) == ['a' as int, 'b' as int, 255, 255]
  {
    assert EofBytes(2) == [LowByte(EOF)] + EofBytes(1);
    assert EofBytes(1) == [LowByte(EOF)] + EofBytes(0);
  }

  /** A quoted string of plain text, from its opening quote, reads back. */
  lemma QuotedReads(st: InState, length: int, s: seq<byte>, rest: seq<byte>)
    requires ValidIn(st) && Ahead(st) == [Quote] + s + [Quote] + rest && Plain(s)
    requires length == -1 || |s| == length
    ensures ReadsTo(ScanQuotedF(st, [], length), s, rest)
  {
    FrontAssoc(Quote, s, Quote, rest);
    Consume(st, Quote, s + [Quote] + rest);
    QuotedLoopReads(GetCharF(st).value, [], length, s, rest);
    NoTail(s);
  }

  // ----- Dispatch in scanSimpleString -----

  /** A quote with no length before it starts a quoted string. */
  lemma QuoteDispatch(st: InState)
    requires ValidIn(st) && st.nextChar == Quote && ScanQuotedF(st, [], -1).Ok?
    ensures ScanSimpleStringF(st) == Ok(NoteEmpty(ScanQuotedF(st, [], -1).value))
  {
    assert ScanLengthAndBodyF(st) == ScanQuotedF(st, [], -1);
  }

  /** A length followed by a quote introduces a quoted string of that length. */
  lemma LengthQuoteBranch(st: InState)
    requires ValidIn(st) && IsDecDigit(st.nextChar) && ScanDecimalF(st).Ok?
    requires ScanDecimalF(st).value.st.nextChar == Quote
    ensures ScanLengthAndBodyF(st) == ScanQuotedF(ScanDecimalF(st).value.st, [], ScanDecimalF(st).value.v)
  {
  }

  /** Plain text between quotes is read back as a simple string. */
  lemma QuotedStringReads(st: InState, s: seq<byte>, rest: seq<byte>)
    requires ValidIn(st) && Ahead(st) == [Quote] + s + [Quote] + rest && Plain(s)
    ensures ReadsTo(ScanSimpleStringF(st), s, rest)
  {
    QuotedReads(st, -1, s, rest);
    QuoteDispatch(st);
    NoteEmptyReads(ScanQuotedF(st, [], -1).value);
  }

  /** Plain text between quotes after its decimal length is read back as a simple string. */
  lemma LengthQuotedStringReads(st: InState, s: seq<byte>, rest: seq<byte>)
    requires ValidIn(st) && Plain(s) && |s| < SexpRoundTrip.DecimalLimit
    requires Ahead(st) == DecimalDigits(|s|) + ([Quote] + s + [Quote] + rest)
    ensures ReadsTo(ScanSimpleStringF(st), s, rest)
  {
    var d := DecimalDigits(|s|);
    var t := [Quote] + s + [Quote] + rest;
    SexpRoundTrip.LimitDigits(|s|);
    SexpRoundTrip.DecimalDigitsValue(|s|);
    SexpRoundTrip.DecimalLoopReads(st, 0, 0, d, t);
    Current(st);
    var dst := ScanDecimalF(st).value.st;
    Current(dst);
    LengthQuoteBranch(st);
    QuotedReads(dst, |s|, s, rest);
    SexpRoundTrip.DigitBranch(st);
    NoteEmptyReads(ScanLengthAndBodyF(st).value);
  }

  /** The token loop reads a run of token characters up to the first other character. */
  lemma {:induction false} TokenLoopReads(st: InState, acc: seq<byte>, s: seq<byte>, rest: seq<byte>)
    requires ValidIn(st) && Ahead(st) == s + rest
    requires forall i :: 0 <= i < |s| ==> IsTokenChar(s[i])
    requires |rest| == 0 || !IsTokenChar(rest[0])
    ensures ReadsTo(TokenLoop(st, acc), acc + s, rest)
    decreases |s|
  {
    Current(st);
    if |s| == 0 {
      EmptyText(acc, s, rest);
    } else {
      Peel(s, rest);
      Consume(st, s[0], s[1..] + rest);
      TokenLoopReads(GetCharF(st).value, acc + [s[0]], s[1..], rest);
      AppendFirst(acc, s);
    }
  }

  /** At a token character that is no digit, scanSimpleString scans a token. */
  lemma TokenDispatch(st: InState)
    requires ValidIn(st) && IsTokenChar(st.nextChar) && !IsDecDigit(st.nextChar)
    requires TokenLoop(st, []).Ok?
    ensures ScanSimpleStringF(st) == Ok(NoteEmpty(TokenLoop(st, []).value))
  {
    assert !IsWhiteSpace(st.nextChar);
    assert ScanTokenF(st, []) == TokenLoop(st, []);
  }

  /** A token that does not start with a digit reads back as a simple string. */
  lemma TokenReads(st: InState, s: seq<byte>, rest: seq<byte>)
    requires ValidIn(st) && Ahead(st) == s + rest && |s| > 0 && !IsDecDigit(s[0])
    requires forall i :: 0 <= i < |s| ==> IsTokenChar(s[i])
    requires |rest| == 0 || !IsTokenChar(rest[0])
    ensures ReadsTo(ScanSimpleStringF(st), s, rest)
  {
    Current(st);
    TokenLoopReads(st, [], s, rest);
    NoTail(s);
    TokenDispatch(st);
    NoteEmptyReads(TokenLoop(st, []).value);
  }

  // ----- scanToEOF -----

  /** White space ahead is skipped up to the first other character, which becomes the current one. */
  lemma {:induction false} SkipWhiteSpaceReads(st: InState, ws: seq<byte>, w: seq<byte>) returns (st': InState)
    requires ValidIn(st) && Ahead(st) == ws + w
    requires forall i :: 0 <= i < |ws| ==> IsWhiteSpace(ws[i])
    requires |w| == 0 || !IsWhiteSpace(w[0])
    ensures SkipWhiteSpaceF(st) == Ok(st') && ValidIn(st') && Ahead(st') == w
    decreases |ws|
  {
    Current(st);
    if |ws| == 0 {
      EmptyText([], ws, w);
      st' := st;
    } else {
      Peel(ws, w);
      Consume(st, ws[0], ws[1..] + w);
      assert forall i :: 0 <= i < |ws[1..]| ==> ws[1..][i] == ws[i + 1];
      st' := SkipWhiteSpaceReads(GetCharF(st).value, ws[1..], w);
    }
  }

  /** The loop of scanToEOF appends every character ahead, one byte each, and stops at EOF. */
  lemma {:induction false} ToEOFLoopReads(st: InState, acc: seq<byte>, w: seq<byte>)
    requires ValidIn(st) && Ahead(st) == w
    ensures ReadsTo(ToEOFLoop(st, acc), acc + w, [])
    decreases |w|
  {
    Current(st);
    if |w| == 0 {
      EmptyText(acc, w, []);
    } else {
      Peel(w, []);
      NoTail(w[1..]);
      Consume(st, w[0], w[1..]);
      ToEOFLoopReads(GetCharF(st).value, acc + [w[0]], w[1..]);
      AppendFirst(acc, w);
    }
  }

  /**
   * scanToEOF skips the leading white space and returns everything after it,
   * up to the end of the input, as a string with no hint.
   */
  lemma ScanToEOFReads(st: InState, ws: seq<byte>, w: seq<byte>)
    requires ValidIn(st) && Ahead(st) == ws + w
    requires forall i :: 0 <= i < |ws| ==> IsWhiteSpace(ws[i])
    requires |w| == 0 || !IsWhiteSpace(w[0])
    ensures ReadsTo(ScanToEOFF(st), Str(None, w), [])
  {
    var st1 := SkipWhiteSpaceReads(st, ws, w);
    ToEOFLoopReads(st1, [], w);
    NoTail(w);
  }

  /** A character that starts no simple string is fatal, and the error names its position. */
  lemma IllegalStart(st: InState)
    requires ValidIn(st) && !IsWhiteSpace(st.nextChar) && !IsTokenChar(st.nextChar)
    requires st.nextChar != Quote && st.nextChar != Hash && st.nextChar != Bar && st.nextChar != ':' as int
    ensures ScanSimpleStringF(st) == Err(IllegalChar(st.count, st.nextChar))
  {
  }
}
