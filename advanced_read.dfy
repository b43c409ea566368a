/**
 * The advanced printer's simple strings read back. On an 8-bit stream with
 * no maximum column, advancedPrintSimpleString writes a token, a quoted
 * string, a hex string or a base64 string, and scanSimpleString, reading
 * that text on an 8-bit input stream, returns exactly the bytes printed.
 */
module SexpAdvancedRead {
  import opened SexpTypes
  import opened SexpChars
  import opened SexpInput
  import opened SexpScanSpec
  import opened SexpReading
  import opened SexpOutput
  import opened SexpEncode
  import SexpAdvanced
  import SexpRegionRead
  import SexpScanProps

  /** The text advancedPrintSimpleString chooses for s, written out independently of the output stream. */
  function SimpleText(st: OutState, s: seq<byte>): seq<byte> {
    if SexpAdvanced.TokenEligible(st, s) then s
    else if SexpAdvanced.QuotedEligible(s) then [Quote] + s + [Quote]
    else if |s| <= 4 then [Hash] + HexEncode(s) + [Hash]
    else [Bar] + Base64Encode(s) + [Bar]
  }

  /** With no maximum column, on an 8-bit stream, advancedPrintSimpleString appends exactly SimpleText. */
  lemma PrintSimpleText(st: OutState, s: seq<byte>)
    requires ValidOut(st) && st.byteSize == 8 && st.maxcolumn <= 0
    ensures SexpAdvanced.PrintSimpleF(st, s).Ok?
    ensures SexpAdvanced.PrintSimpleF(st, s).value.out == st.out + SimpleText(st, s)
  {
    if SexpAdvanced.TokenEligible(st, s) {
      SexpAdvanced.TokenQuiet(st, s);
    } else if SexpAdvanced.QuotedEligible(s) {
      SexpAdvanced.QuotedQuiet(st, s);
    } else if |s| <= 4 {
      SexpAdvanced.HexQuiet(st, s);
    } else {
      SexpAdvanced.Base64Quiet(st, s);
    }
  }

  /** A '#' with no length before it starts a hex string. */
  lemma HashDispatch(st: InState)
    requires ValidIn(st) && st.nextChar == Hash && ScanHexF(st, [], -1).Ok?
    ensures ScanSimpleStringF(st) == Ok(NoteEmpty(ScanHexF(st, [], -1).value))
  {
    assert ScanLengthAndBodyF(st) == ScanHexF(st, [], -1);
  }

  /** A '|' with no length before it starts a base64 string. */
  lemma BarDispatch(st: InState)
    requires ValidIn(st) && st.nextChar == Bar && ScanBase64F(st, [], -1).Ok?
    ensures ScanSimpleStringF(st) == Ok(NoteEmpty(ScanBase64F(st, [], -1).value))
  {
    assert ScanLengthAndBodyF(st) == ScanBase64F(st, [], -1);
  }

  /** scanSimpleString reads a hex string, given without a length, back as the bytes it encodes. */
  lemma HexSimpleStringReads(st: InState, s: seq<byte>, rest: seq<byte>)
    requires ValidIn(st) && st.byteSize == 8
    requires Ahead(st) == [Hash] + HexEncode(s) + [Hash] + rest
    ensures ReadsTo(ScanSimpleStringF(st), s, rest)
  {
    Current(st);
    SexpRegionRead.HexStringReads(st, s, -1, rest);
    HashDispatch(st);
    NoteEmptyReads(ScanHexF(st, [], -1).value);
  }

  /** scanSimpleString reads a base64 string, given without a length, back as the bytes it encodes. */
  lemma Base64SimpleStringReads(st: InState, s: seq<byte>, rest: seq<byte>)
    requires ValidIn(st) && st.byteSize == 8
    requires Ahead(st) == [Bar] + Base64Encode(s) + [Bar] + rest
    ensures ReadsTo(ScanSimpleStringF(st), s, rest)
  {
    Current(st);
    SexpRegionRead.Base64StringReads(st, s, -1, rest);
    BarDispatch(st);
    NoteEmptyReads(ScanBase64F(st, [], -1).value);
  }

  /** A token the printer chose reads back as itself. */
  lemma TokenTextReads(os: OutState, s: seq<byte>, st: InState, rest: seq<byte>)
    requires SexpAdvanced.TokenEligible(os, s)
    requires ValidIn(st) && Ahead(st) == s + rest
    requires |rest| == 0 || !IsTokenChar(rest[0])
    ensures ReadsTo(ScanSimpleStringF(st), s, rest)
  {
    assert forall i :: 0 <= i < |s| ==> IsTokenChar(s[i]);
    SexpScanProps.TokenReads(st, s, rest);
  }

  /** A quoted string the printer chose reads back as its contents. */
  lemma QuotedTextReads(s: seq<byte>, st: InState, rest: seq<byte>)
    requires SexpAdvanced.QuotedEligible(s)
    requires ValidIn(st) && Ahead(st) == [Quote] + s + [Quote] + rest
    ensures ReadsTo(ScanSimpleStringF(st), s, rest)
  {
    assert SexpScanProps.Plain(s);
    SexpScanProps.QuotedStringReads(st, s, rest);
  }

  /**
   * Each of the four forms the printer chooses reads back as the string,
   * when what follows cannot continue a token.
   */
  lemma SimpleTextReads(os: OutState, s: seq<byte>, st: InState, rest: seq<byte>)
    requires ValidIn(st) && st.byteSize == 8 && Ahead(st) == SimpleText(os, s) + rest
    requires |rest| == 0 || !IsTokenChar(rest[0])
    ensures ReadsTo(ScanSimpleStringF(st), s, rest)
  {
    if SexpAdvanced.TokenEligible(os, s) {
      TokenTextReads(os, s, st, rest);
    } else if SexpAdvanced.QuotedEligible(s) {
      QuotedTextReads(s, st, rest);
    } else if |s| <= 4 {
      HexSimpleStringReads(st, s, rest);
    } else {
      Base64SimpleStringReads(st, s, rest);
    }
  }

  /** What follows a common prefix determines the rest. */
  lemma CancelPrefix(a: seq<byte>, w: seq<byte>, v: seq<byte>)
    requires a + w == a + v
    ensures w == v
  {
    assert w == (a + w)[|a|..];
    assert v == (a + v)[|a|..];
  }

  /**
   * The round trip of advancedPrintSimpleString and scanSimpleString: on an
   * 8-bit stream with no maximum column, whatever text the printer appends
   * for s, an 8-bit input stream delivering that text, and then something
   * that cannot continue a token, scans back to s.
   */
  lemma AdvancedSimpleRoundTrip(os: OutState, s: seq<byte>, w: seq<byte>, st: InState, rest: seq<byte>)
    requires ValidOut(os) && os.byteSize == 8 && os.maxcolumn <= 0
    requires SexpAdvanced.PrintSimpleF(os, s).Ok? && SexpAdvanced.PrintSimpleF(os, s).value.out == os.out + w
    requires ValidIn(st) && st.byteSize == 8 && Ahead(st) == w + rest
    requires |rest| == 0 || !IsTokenChar(rest[0])
    ensures ReadsTo(ScanSimpleStringF(st), s, rest)
  {
    PrintSimpleText(os, s);
    CancelPrefix(os.out, w, SimpleText(os, s));
    SimpleTextReads(os, s, st, rest);
  }
}
