/**
 * The canonical printer of sexp-output.c (printDecimal,
 * canonicalPrintVerbatimSimpleString, canonicalPrintString,
 * canonicalPrintList, canonicalPrintObject) and the base64-of-canonical
 * printer (base64PrintWholeObject).
 *
 * Canon is the reference: the canonical encoding of the S-expressions
 * Internet-Draft, written independently of the output stream. Every
 * printer sends its bytes through varPutChar, so each method is proved to
 * leave the stream as varPutChar applied to the bytes of Canon would; the
 * lemmas then say what that writes on an 8-bit stream and in a base64
 * region.
 */
module SexpCanonical {
  import opened SexpTypes
  import opened SexpChars
  import opened SexpOutput
  import opened SexpChannel
  import opened SexpEncode

  /** The punctuation of the canonical and transport encodings, as bytes. */
  const Colon: byte := ':' as int
  const OpenParen: byte := '(' as int
  const CloseParen: byte := ')' as int
  const OpenBracket: byte := '[' as int
  const CloseBracket: byte := ']' as int
  const OpenBrace: byte := '{' as int
  const CloseBrace: byte := '}' as int

  /** The decimal digit for v. */
  function DecDigit(v: nat): (c: byte)
    requires v < 10
    ensures IsDecDigit(c) && DecValue(c) == v
  {
    '0' as int + v
  }

  /** What sprintf "%ld" writes for a length n: its decimal digits, most significant first, with no leading zero. */
  function DecimalDigits(n: nat): (r: seq<byte>)
    ensures 1 <= |r| && (forall i :: 0 <= i < |r| ==> IsDecDigit(r[i]))
    ensures n > 0 ==> r[0] != '0' as int
  {
    if n < 10 then [DecDigit(n)] else DecimalDigits(n / 10) + [DecDigit(n % 10)]
  }

  /** A verbatim simple string: its length in decimal, ':' and its bytes. */
  function Verbatim(s: seq<byte>): seq<byte> {
    DecimalDigits(|s|) + [Colon] + s
  }

  /**
   * The canonical encoding of an object: a string is its hint in brackets,
   * if any, followed by its value, both verbatim; a list is '(' followed by
   * the encodings of its elements with nothing between them, then ')'.
   */
  function Canon(o: Obj): seq<byte>
    decreases o
  {
    match o
    case Str(hint, v) => (if hint.Some? then [OpenBracket] + Verbatim(hint.value) + [CloseBracket] else []) + Verbatim(v)
    case List(es) => [OpenParen] + CanonList(es) + [CloseParen]
  }

  /** The encodings of the elements of a list, one after another. */
  function CanonList(es: seq<Obj>): seq<byte>
    decreases es
  {
    if |es| == 0 then [] else CanonList(es[..|es| - 1]) + Canon(es[|es| - 1])
  }

  /** The encodings of the first i + 1 elements are those of the first i, then that of element i. */
  lemma CanonListPrefix(es: seq<Obj>, i: nat)
    requires i < |es|
    ensures CanonList(es[..i + 1]) == CanonList(es[..i]) + Canon(es[i])
  {
    assert es[..i + 1][..i] == es[..i];
  }

  /** Writing a, then b, then c is writing a + b + c. */
  lemma PutBytesThen(st: OutState, a: seq<byte>, b: seq<byte>, c: seq<byte>)
    requires ValidOut(st)
    ensures PutBytesF(PutBytesF(PutBytesF(st, a), b), c) == PutBytesF(st, a + b + c)
  {
    PutBytesAppend(st, a, b);
    PutBytesAppend(st, a + b, c);
  }

  /** printDecimal: varPutChar on each digit of n. */
  method PrintDecimal(os: OutputStream, n: nat)
    requires os.Valid()
    modifies os
    ensures os.Valid() && os.State() == PutBytesF(old(os.State()), DecimalDigits(n))
  {
    var buffer := DecimalDigits(n);
    os.PutBytes(buffer);
  }

  /** canonicalPrintVerbatimSimpleString */
  method CanonicalPrintVerbatimSimpleString(os: OutputStream, s: seq<byte>)
    requires os.Valid()
    modifies os
    ensures os.Valid() && os.State() == PutBytesF(old(os.State()), Verbatim(s))
  {
    ghost var st0 := os.State();
    PrintDecimal(os, |s|);
    ghost var st1 := os.State();
    os.VarPutChar(Colon);
    PutBytesOne(st1, Colon);
    os.PutBytes(s);
    PutBytesThen(st0, DecimalDigits(|s|), [Colon], s);
  }

  /** canonicalPrintString: the hint in brackets, if there is one, then the value. */
  method CanonicalPrintString(os: OutputStream, o: Obj)
    requires os.Valid() && o.Str?
    modifies os
    ensures os.Valid() && os.State() == PutBytesF(old(os.State()), Canon(o))
  {
    ghost var st0 := os.State();
    ghost var pre: seq<byte> := [];
    if o.hint.Some? {
      os.VarPutChar(OpenBracket);
      PutBytesOne(st0, OpenBracket);
      CanonicalPrintVerbatimSimpleString(os, o.hint.value);
      ghost var st2 := os.State();
      os.VarPutChar(CloseBracket);
      PutBytesOne(st2, CloseBracket);
      PutBytesThen(st0, [OpenBracket], Verbatim(o.hint.value), [CloseBracket]);
      pre := [OpenBracket] + Verbatim(o.hint.value) + [CloseBracket];
    }
    assert os.State() == PutBytesF(st0, pre);
    CanonicalPrintVerbatimSimpleString(os, o.val);
    PutBytesAppend(st0, pre, Verbatim(o.val));
  }

  /** canonicalPrintList: '(', each element in turn, ')'. */
  method CanonicalPrintList(os: OutputStream, es: seq<Obj>)
    requires os.Valid()
    modifies os
    ensures os.Valid() && os.State() == PutBytesF(old(os.State()), Canon(List(es)))
    decreases es
  {
    ghost var st0 := os.State();
    os.VarPutChar(OpenParen);
    PutBytesOne(st0, OpenParen);
    var i := 0;
    while i < |es|
      invariant 0 <= i <= |es| && os.Valid()
      invariant os.State() == PutBytesF(st0, [OpenParen] + CanonList(es[..i]))
    {
      ghost var sti := os.State();
      CanonicalPrintObject(os, es[i]);
      ListPrintStep(st0, es, i, sti);
      i := i + 1;
    }
    assert es[..|es|] == es;
    ghost var stn := os.State();
    os.VarPutChar(CloseParen);
    PutBytesOne(stn, CloseParen);
    PutBytesAppend(st0, [OpenParen] + CanonList(es), [CloseParen]);
  }

  /** One pass of the loop of canonicalPrintList: element i follows the first i. */
  lemma ListPrintStep(st0: OutState, es: seq<Obj>, i: nat, sti: OutState)
    requires ValidOut(st0) && i < |es|
    requires sti == PutBytesF(st0, [OpenParen] + CanonList(es[..i]))
    ensures PutBytesF(sti, Canon(es[i])) == PutBytesF(st0, [OpenParen] + CanonList(es[..i + 1]))
  {
    var p, q := [OpenParen] + CanonList(es[..i]), Canon(es[i]);
    PutBytesAppend(st0, p, q);
    CanonListStep(es, i);
  }

  /** The bytes before element i + 1 are those before element i, then its encoding. */
  lemma CanonListStep(es: seq<Obj>, i: nat)
    requires i < |es|
    ensures [OpenParen] + CanonList(es[..i]) + Canon(es[i]) == [OpenParen] + CanonList(es[..i + 1])
  {
    CanonListPrefix(es, i);
  }

  /** canonicalPrintObject */
  method CanonicalPrintObject(os: OutputStream, o: Obj)
    requires os.Valid()
    modifies os
    ensures os.Valid() && os.State() == PutBytesF(old(os.State()), Canon(o))
    decreases o
  {
    if o.Str? {
      CanonicalPrintString(os, o);
    } else {
      CanonicalPrintList(os, o.elems);
    }
  }

  /** On an 8-bit stream that never breaks a line, the canonical printer writes exactly Canon. */
  lemma CanonicalQuiet(st: OutState, o: Obj)
    requires ValidOut(st) && st.byteSize == 8 && Quiet(st)
    ensures PutBytesF(st, Canon(o)).out == st.out + Canon(o)
  {
    EightBitPutBytesQuiet(st, Canon(o));
  }

  /**
   * canonicalPrintObject as written sets no mode: on a stream left in base64
   * mode at or past its maximum column (as the base64 printer leaves it for
   * the next object), a '{' in a string is preceded by a line feed, so the
   * string "{" comes out as "1:", line feed, "{".
   */
  lemma CanonicalPrintAfterBase64(st: OutState, o: Obj)
    requires st == OutState([], 80, DefaultLineLength, 0, 8, 0, 0, 0, Base64)
    requires o == Str(None, [OpenBrace])
    ensures ValidOut(st) && Canon(o) == ['1' as int, Colon, OpenBrace]
    ensures PutBytesF(st, Canon(o)).out == ['1' as int, Colon, LineFeed, OpenBrace]
    ensures PutBytesF(st, Canon(o)).out != st.out + Canon(o)
  {
    CanonOneBrace(o);
    PutBytesThree(st, '1' as int, Colon, OpenBrace);
    var s1 := VarPutCharF(st, '1' as int);
    PastMaxPlain(st, '1' as int);
    var s2 := VarPutCharF(s1, Colon);
    PastMaxPlain(s1, Colon);
    PastMaxBrace(s2);
    BraceOutText(st.out, s1.out, s2.out, VarPutCharF(s2, OpenBrace).out);
  }

  lemma CanonOneBrace(o: Obj)
    requires o == Str(None, [OpenBrace])
    ensures Canon(o) == ['1' as int, Colon, OpenBrace]
  {
    assert DecimalDigits(1) == ['1' as int];
  }

  /** The text of the example, assembled byte by byte. */
  lemma BraceOutText(a: seq<byte>, b: seq<byte>, c: seq<byte>, d: seq<byte>)
    requires a == [] && b == a + ['1' as int] && c == b + [Colon] && d == c + [LineFeed, OpenBrace]
    ensures d == ['1' as int, Colon, LineFeed, OpenBrace]
    ensures d != a + ['1' as int, Colon, OpenBrace]
  {
    assert d[2] == LineFeed;
  }

  /** Past the maximum column of a base64-mode stream at width 8, a byte other than a brace, '#' or '|' goes out alone. */
  lemma PastMaxPlain(st: OutState, c: byte)
    requires ValidOut(st) && st.byteSize == 8 && st.mode == Base64 && 0 < st.maxcolumn <= st.column
    requires c != OpenBrace && c != CloseBrace && c != '#' as int && c != '|' as int
    ensures var r := VarPutCharF(st, c);
      r.out == st.out + [c] && r.mode == Base64 && 0 < r.maxcolumn <= r.column && r.byteSize == 8
  {
    EightBitPutChar(st, c);
  }

  /** There a '{' is preceded by a line feed. */
  lemma PastMaxBrace(st: OutState)
    requires ValidOut(st) && st.byteSize == 8 && st.mode == Base64 && 0 < st.maxcolumn <= st.column
    ensures VarPutCharF(st, OpenBrace).out == st.out + [LineFeed, OpenBrace]
  {
    EightBitPutChar(st, OpenBrace);
    NewLineShape(st, Base64);
  }

  /**
   * The canonical printer with its mode set first (changeOutputByteSize to
   * width 8 in canonical mode): whatever state the last printer left
   * behind, exactly the canonical encoding is written.
   */
  method CanonicalPrintWholeObject(os: OutputStream, o: Obj)
    requires os.Valid()
    modifies os
    ensures os.Valid() && os.out == old(os.out) + Canon(o)
    ensures os.byteSize == 8 && os.mode == Canonical
  {
    var r := os.ChangeOutputByteSize(8, Canonical);
    assert r == Pass;
    ghost var st1 := os.State();
    CanonicalPrintObject(os, o);
    CanonicalQuiet(st1, o);
  }

  /** At width 8 a byte that is not white space shows as itself, and on a quiet stream it is all that is written. */
  lemma EightBitShown(st: OutState, c: byte)
    requires ValidOut(st) && st.byteSize == 8 && !IsWhiteSpace(c)
    ensures var r := VarPutCharF(st, c);
      && r.nBits == 0 && Visible(r.out) == Visible(st.out) + [c]
      && (Quiet(st) ==> r.out == st.out + [c])
  {
    EightBitPutChar(st, c);
    BreakInvisible(st, c);
    VisibleAppendShown(BreakIfDue(st, c).out, c);
  }

  /**
   * base64PrintWholeObject: '{', the canonical encoding written into a
   * base64 region and flushed, '}', all in base64 mode.
   */
  function Base64WholeF(st: OutState, o: Obj): (r: OutState)
    requires ValidOut(st)
    ensures ValidOut(r) && r.byteSize == 8 && r.mode == Base64 && r.maxcolumn == st.maxcolumn
  {
    var s1 := ChangeOutputByteSizeF(st, 8, Base64).value;
    var s2 := VarPutCharF(s1, OpenBrace);
    var s3 := ChangeOutputByteSizeF(s2, 6, Base64).value;
    var s4 := FlushF(PutBytesF(s3, Canon(o)));
    var s5 := ChangeOutputByteSizeF(s4, 8, Base64).value;
    VarPutCharF(s5, CloseBrace)
  }

  /** base64PrintWholeObject */
  method Base64PrintWholeObject(os: OutputStream, o: Obj)
    requires os.Valid()
    modifies os
    ensures os.Valid() && os.State() == Base64WholeF(old(os.State()), o)
  {
    var r := os.ChangeOutputByteSize(8, Base64);
    assert r == Pass;
    os.VarPutChar(OpenBrace);
    r := os.ChangeOutputByteSize(6, Base64);
    assert r == Pass;
    CanonicalPrintObject(os, o);
    os.FlushOutput();
    r := os.ChangeOutputByteSize(8, Base64);
    assert r == Pass;
    os.VarPutChar(CloseBrace);
  }

  /**
   * What base64PrintWholeObject shows: the base64 encoding of the canonical
   * encoding, in braces, with line breaks (white space) only where the
   * maximum column forces them.
   */
  lemma Base64WholeVisible(st: OutState, o: Obj)
    requires ValidOut(st)
    ensures Visible(Base64WholeF(st, o).out) == Visible(st.out) + ([OpenBrace] + Base64Encode(Canon(o)) + [CloseBrace])
  {
    var s1 := ChangeOutputByteSizeF(st, 8, Base64).value;
    var s2 := VarPutCharF(s1, OpenBrace);
    var s3 := ChangeOutputByteSizeF(s2, 6, Base64).value;
    var s4 := FlushF(PutBytesF(s3, Canon(o)));
    var s5 := ChangeOutputByteSizeF(s4, 8, Base64).value;
    var e := Base64Encode(Canon(o));
    EightBitShown(s1, OpenBrace);
    Base64PutBytes(s3, Canon(o));
    EightBitShown(s5, CloseBrace);
    AppendAssoc(Visible(st.out), Visible(s2.out), Visible(s4.out), [OpenBrace], e);
    AppendAssoc(Visible(st.out), Visible(s4.out), Visible(VarPutCharF(s5, CloseBrace).out), [OpenBrace] + e, [CloseBrace]);
  }

  /** With no maximum column nothing but the braces and the digits is written. */
  lemma Base64WholeQuiet(st: OutState, o: Obj)
    requires ValidOut(st) && st.maxcolumn <= 0
    ensures Base64WholeF(st, o).out == st.out + ([OpenBrace] + Base64Encode(Canon(o)) + [CloseBrace])
  {
    var s1 := ChangeOutputByteSizeF(st, 8, Base64).value;
    var s2 := VarPutCharF(s1, OpenBrace);
    var s3 := ChangeOutputByteSizeF(s2, 6, Base64).value;
    var s4 := FlushF(PutBytesF(s3, Canon(o)));
    var s5 := ChangeOutputByteSizeF(s4, 8, Base64).value;
    var e := Base64Encode(Canon(o));
    EightBitShown(s1, OpenBrace);
    Base64PutBytesQuiet(s3, Canon(o));
    EightBitShown(s5, CloseBrace);
    AppendAssoc(st.out, s2.out, s4.out, [OpenBrace], e);
    AppendAssoc(st.out, s4.out, VarPutCharF(s5, CloseBrace).out, [OpenBrace] + e, [CloseBrace]);
  }
}
