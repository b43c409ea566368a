/**
 * The advanced printer of sexp-output.c: each simple string as a token, a
 * quoted string, a hex string or a base64 string (the first that applies),
 * display hints in brackets, and lists laid out on one line when their
 * computed width fits before the maximum column and one element per line
 * otherwise.
 *
 * The widths (advancedLength*) and the eligibility tests (canPrintAs*) are
 * functions of the stream state; the printers are methods proved to leave
 * the stream as the functions Print*F say. When there is no maximum column
 * the printers write exactly the encodings of RFC 4648 (section 8 for hex,
 * section 4 with the padding of section 3.2 for base64) and as many
 * characters as the widths say.
 */
module SexpAdvanced {
  import opened SexpTypes
  import opened SexpChars
  import opened SexpOutput
  import opened SexpChannel
  import opened SexpEncode
  import opened SexpCanonical

  /** canPrintAsToken: not empty, not starting with a digit, fitting before a positive maximum column, token characters only. */
  predicate TokenEligible(st: OutState, s: seq<byte>) {
    && |s| > 0
    && !IsDecDigit(s[0])
    && !(st.maxcolumn > 0 && st.column + |s| >= st.maxcolumn)
    && forall k :: 0 <= k < |s| ==> IsTokenChar(s[k])
  }

  /** canPrintAsQuotedString: token characters and blanks only. */
  predicate QuotedEligible(s: seq<byte>) {
    forall k :: 0 <= k < |s| ==> IsTokenChar(s[k]) || s[k] == Blank
  }

  /** canPrintAsToken */
  method CanPrintAsToken(os: OutputStream, s: seq<byte>) returns (r: bool)
    ensures r == TokenEligible(os.State(), s)
  {
    var len := |s|;
    if len <= 0 {
      return false;
    }
    if IsDecDigit(s[0]) {
      return false;
    }
    if os.maxcolumn > 0 && os.column + len >= os.maxcolumn {
      return false;
    }
    var i := 0;
    while i < len
      invariant 0 <= i <= len
      invariant forall k :: 0 <= k < i ==> IsTokenChar(s[k])
    {
      if !IsTokenChar(s[i]) {
        return false;
      }
      i := i + 1;
    }
    return true;
  }

  /** canPrintAsQuotedString */
  method CanPrintAsQuotedString(s: seq<byte>) returns (r: bool)
    ensures r == QuotedEligible(s)
  {
    var i := 0;
    while i < |s|
      invariant 0 <= i <= |s|
      invariant forall k :: 0 <= k < i ==> IsTokenChar(s[k]) || s[k] == Blank
    {
      if !IsTokenChar(s[i]) && s[i] != Blank {
        return false;
      }
      i := i + 1;
    }
    return true;
  }

  /** The widths of the four encodings: the string itself, two quotes around it, two digits a byte between two '#', four digits a group of three between two '|'. */
  function TokenWidth(s: seq<byte>): int { |s| }
  function QuotedWidth(s: seq<byte>): int { |s| + 2 }
  function HexWidth(s: seq<byte>): int { 2 * |s| + 2 }
  function Base64Width(s: seq<byte>): int { 2 + 4 * ((|s| + 2) / 3) }

  /** advancedLengthSimpleString: the width of the encoding the printer picks, 0 when it would fail. */
  function SimpleWidth(st: OutState, s: seq<byte>): (w: int)
    ensures w >= 0
  {
    if TokenEligible(st, s) then TokenWidth(s)
    else if QuotedEligible(s) then QuotedWidth(s)
    else if |s| <= 4 && st.byteSize == 8 then HexWidth(s)
    else if st.byteSize == 8 then Base64Width(s)
    else 0
  }

  /** advancedLengthString: a hint adds its brackets and its own width. */
  function StringWidth(st: OutState, o: Obj): (w: int)
    requires o.Str?
    ensures w >= 0
  {
    (if o.hint.Some? then 2 + SimpleWidth(st, o.hint.value) else 0) + SimpleWidth(st, o.val)
  }

  /** The width of an object, as advancedLengthList adds it up for each element. */
  function ObjectWidth(st: OutState, o: Obj): (w: int)
    ensures w >= 0
    decreases o
  {
    match o
    case Str(_, _) => StringWidth(st, o)
    case List(es) => ListWidth(st, es)
  }

  /** advancedLengthList: the two parentheses, and each element's width with one blank after it. */
  function ListWidth(st: OutState, es: seq<Obj>): (w: int)
    ensures w >= 2
    decreases es, 1
  {
    2 + WidthSum(st, es)
  }

  /** The sum over the elements of their width plus one. */
  function WidthSum(st: OutState, es: seq<Obj>): (w: int)
    ensures w >= |es|
    decreases es, 0
  {
    if |es| == 0 then 0 else WidthSum(st, es[..|es| - 1]) + ObjectWidth(st, es[|es| - 1]) + 1
  }

  /** advancedLengthSimpleString */
  method AdvancedLengthSimpleString(os: OutputStream, s: seq<byte>) returns (w: int)
    ensures w == SimpleWidth(os.State(), s)
  {
    var len := |s|;
    var token := CanPrintAsToken(os, s);
    var quoted := CanPrintAsQuotedString(s);
    if token {
      w := len;
    } else if quoted {
      w := len + 2;
    } else if len <= 4 && os.byteSize == 8 {
      w := 2 * len + 2;
    } else if os.byteSize == 8 {
      w := 2 + 4 * ((len + 2) / 3);
    } else {
      w := 0;
    }
  }

  /** advancedLengthString */
  method AdvancedLengthString(os: OutputStream, o: Obj) returns (w: int)
    requires o.Str?
    ensures w == StringWidth(os.State(), o)
  {
    w := 0;
    if o.hint.Some? {
      var h := AdvancedLengthSimpleString(os, o.hint.value);
      w := w + 2 + h;
    }
    var v := AdvancedLengthSimpleString(os, o.val);
    w := w + v;
  }

  /** advancedLengthList: one for '(', each element's width and one for the blank after it, one for ')'. */
  method AdvancedLengthList(os: OutputStream, es: seq<Obj>) returns (w: int)
    ensures w == ListWidth(os.State(), es)
    decreases es
  {
    var len := 1;
    var i := 0;
    while i < |es|
      invariant 0 <= i <= |es|
      invariant len == 1 + WidthSum(os.State(), es[..i])
    {
      var e := es[i];
      var x;
      if e.Str? {
        x := AdvancedLengthString(os, e);
      } else {
        x := AdvancedLengthList(os, e.elems);
      }
      assert es[..i + 1][..i] == es[..i];
      len := len + x;
      len := len + 1;
      i := i + 1;
    }
    assert es[..|es|] == es;
    return len + 1;
  }

  /** When there is no maximum column the position does not change any width. */
  lemma SimpleWidthAnywhere(st: OutState, st': OutState, s: seq<byte>)
    requires st.maxcolumn <= 0 && st'.maxcolumn == st.maxcolumn && st'.byteSize == st.byteSize
    ensures SimpleWidth(st', s) == SimpleWidth(st, s)
  {
    assert TokenEligible(st', s) == TokenEligible(st, s);
  }

  /** What every advanced printer leaves as it was: the channel invariant, the width, the maximum column and the indentation. */
  ghost predicate Keeps(st: OutState, r: OutState) {
    ValidOut(r) && r.byteSize == st.byteSize && r.maxcolumn == st.maxcolumn && r.indent == st.indent
  }

  /**
   * The outcome of a printer that can fail, against the function that says
   * what it does: the same failure, or success with the stream in the
   * state the function gives.
   */
  ghost predicate Done(r: Outcome, f: Result<OutState>, st: OutState) {
    && (r.Fail? <==> f.Err?)
    && (f.Err? ==> r.error == f.error)
    && (f.Ok? ==> ValidOut(st) && st == f.value)
  }

  /** A line break in advanced mode when the column is past a positive maximum less `room`. */
  function BreakBefore(st: OutState, room: int): (r: OutState)
    ensures r == st.(out := r.out, column := r.column)
  {
    if st.maxcolumn > 0 && st.column > st.maxcolumn - room then NewLineF(st, Advanced) else st
  }

  /** advancedPrintTokenSimpleString: a line break if the token would pass the maximum column, then the bytes. */
  function PrintTokenF(st: OutState, s: seq<byte>): (r: OutState)
    ensures r == st.(out := r.out, column := r.column)
  {
    var st1 := BreakBefore(st, |s|);
    st1.(out := st1.out + s, column := st1.column + |s|)
  }

  method AdvancedPrintTokenSimpleString(os: OutputStream, s: seq<byte>)
    modifies os
    ensures os.State() == PrintTokenF(old(os.State()), s)
  {
    var len := |s|;
    if os.maxcolumn > 0 && os.column > os.maxcolumn - len {
      os.NewLine(Advanced);
    }
    ghost var st1 := os.State();
    var i := 0;
    while i < len
      invariant 0 <= i <= len
      invariant os.State() == st1.(out := st1.out + s[..i], column := st1.column + i)
    {
      assert s[..i + 1] == s[..i] + [s[i]];
      os.PutChar(s[i]);
      i := i + 1;
    }
    assert s[..len] == s;
  }

  /** The line continuation of the quoted printer: backslash and line feed, with the column set back to 0. */
  function Continue(st: OutState): (r: OutState)
    ensures r == st.(out := st.out + [Backslash, LineFeed], column := 0)
  {
    PutCharF(PutCharF(st, Backslash), LineFeed).(column := 0)
  }

  /** The loop of advancedPrintQuotedStringSimpleString over the bytes from the current one on. */
  function QuotedBodyF(st: OutState, s: seq<byte>): (r: OutState)
    ensures r == st.(out := r.out, column := r.column)
    decreases |s|
  {
    if |s| == 0 then st else QuotedBodyF(PutCharF(QuotedBreak(st), s[0]), s[1..])
  }

  /** The test of that loop: a continuation when fewer than two columns are left before a positive maximum. */
  function QuotedBreak(st: OutState): (r: OutState)
    ensures r == st.(out := r.out, column := r.column)
  {
    if st.maxcolumn > 0 && st.column >= st.maxcolumn - 2 then Continue(st) else st
  }

  /** advancedPrintQuotedStringSimpleString: the bytes between double quotes, continued on the next line near the maximum column. */
  function PrintQuotedF(st: OutState, s: seq<byte>): (r: OutState)
    ensures r == st.(out := r.out, column := r.column)
  {
    PutCharF(QuotedBodyF(PutCharF(st, Quote), s), Quote)
  }

  method AdvancedPrintQuotedStringSimpleString(os: OutputStream, s: seq<byte>)
    modifies os
    ensures os.State() == PrintQuotedF(old(os.State()), s)
  {
    os.PutChar(Quote);
    ghost var st1 := os.State();
    var i := 0;
    while i < |s|
      invariant 0 <= i <= |s|
      invariant QuotedBodyF(os.State(), s[i..]) == QuotedBodyF(st1, s)
    {
      assert s[i..][1..] == s[i + 1..];
      if os.maxcolumn > 0 && os.column >= os.maxcolumn - 2 {
        os.PutChar(Backslash);
        os.PutChar(LineFeed);
        os.column := 0;
      }
      os.PutChar(s[i]);
      i := i + 1;
    }
    os.PutChar(Quote);
  }

  /** The bytes written into a freshly opened hex or base64 region, the region flushed and closed back to width 8. */
  function RegionF(st: OutState, s: seq<byte>): (r: OutState)
    requires ValidOut(st)
    ensures ValidOut(r) && r.byteSize == 8 && r.mode == Advanced && r.maxcolumn == st.maxcolumn && r.indent == st.indent
  {
    ChangeOutputByteSizeF(FlushF(PutBytesF(st, s)), 8, Advanced).value
  }

  /** advancedPrintHexSimpleString: '#', a hex region holding the bytes, '#'; only an 8-bit stream can open the region. */
  function PrintHexF(st: OutState, s: seq<byte>): (r: Result<OutState>)
    requires ValidOut(st)
    ensures r.Ok? <==> st.byteSize == 8
    ensures r.Ok? ==> Keeps(st, r.value) && r.value.mode == Advanced
  {
    var c := ChangeOutputByteSizeF(PutCharF(st, Hash), 4, Advanced);
    if c.Err? then Err(c.error) else Ok(PutCharF(RegionF(c.value, s), Hash))
  }

  method AdvancedPrintHexSimpleString(os: OutputStream, s: seq<byte>) returns (r: Outcome)
    requires os.Valid()
    modifies os
    ensures Done(r, PrintHexF(old(os.State()), s), os.State())
  {
    os.PutChar(Hash);
    r := os.ChangeOutputByteSize(4, Advanced);
    if r.Fail? {
      return;
    }
    os.PutBytes(s);
    os.FlushOutput();
    r := os.ChangeOutputByteSize(8, Advanced);
    os.PutChar(Hash);
  }

  /** advancedPrintBase64SimpleString: '|', a base64 region holding the bytes, '|'. */
  function PrintBase64F(st: OutState, s: seq<byte>): (r: Result<OutState>)
    requires ValidOut(st)
    ensures r.Ok? <==> st.byteSize == 8
    ensures r.Ok? ==> Keeps(st, r.value) && r.value.mode == Advanced
  {
    var c := ChangeOutputByteSizeF(VarPutCharF(st, Bar), 6, Advanced);
    if c.Err? then Err(c.error) else Ok(VarPutCharF(RegionF(c.value, s), Bar))
  }

  method AdvancedPrintBase64SimpleString(os: OutputStream, s: seq<byte>) returns (r: Outcome)
    requires os.Valid()
    modifies os
    ensures Done(r, PrintBase64F(old(os.State()), s), os.State())
  {
    os.VarPutChar(Bar);
    r := os.ChangeOutputByteSize(6, Advanced);
    if r.Fail? {
      return;
    }
    os.PutBytes(s);
    os.FlushOutput();
    r := os.ChangeOutputByteSize(8, Advanced);
    os.VarPutChar(Bar);
  }

  /**
   * advancedPrintSimpleString: token, else quoted, else hex for at most four
   * bytes, else base64; the last two need an 8-bit stream, and without one
   * a string that is neither a token nor quotable cannot be printed.
   */
  function PrintSimpleF(st: OutState, s: seq<byte>): (r: Result<OutState>)
    requires ValidOut(st)
    ensures r.Err? <==> !TokenEligible(st, s) && !QuotedEligible(s) && st.byteSize != 8
    ensures r.Err? ==> r.error == RestrictedAdvanced
    ensures r.Ok? ==> Keeps(st, r.value)
  {
    if TokenEligible(st, s) then Ok(PrintTokenF(st, s))
    else if QuotedEligible(s) then Ok(PrintQuotedF(st, s))
    else if |s| <= 4 && st.byteSize == 8 then PrintHexF(st, s)
    else if st.byteSize == 8 then PrintBase64F(st, s)
    else Err(RestrictedAdvanced)
  }

  method AdvancedPrintSimpleString(os: OutputStream, s: seq<byte>) returns (r: Outcome)
    requires os.Valid()
    modifies os
    ensures Done(r, PrintSimpleF(old(os.State()), s), os.State())
  {
    var len := |s|;
    var token := CanPrintAsToken(os, s);
    if token {
      AdvancedPrintTokenSimpleString(os, s);
      return Pass;
    }
    var quoted := CanPrintAsQuotedString(s);
    if quoted {
      AdvancedPrintQuotedStringSimpleString(os, s);
      return Pass;
    }
    if len <= 4 && os.byteSize == 8 {
      r := AdvancedPrintHexSimpleString(os, s);
    } else if os.byteSize == 8 {
      r := AdvancedPrintBase64SimpleString(os, s);
    } else {
      r := Fail(RestrictedAdvanced);
    }
  }

  /** advancedPrintString: the hint, if any, in brackets, then the value. */
  function PrintStringF(st: OutState, o: Obj): (r: Result<OutState>)
    requires ValidOut(st) && o.Str?
    ensures st.byteSize == 8 ==> r.Ok?
    ensures r.Ok? ==> Keeps(st, r.value)
  {
    if o.hint.Some? then
      var h := PrintSimpleF(PutCharF(st, OpenBracket), o.hint.value);
      if h.Err? then h
      else PrintSimpleF(PutCharF(h.value, CloseBracket), o.val)
    else PrintSimpleF(st, o.val)
  }

  method AdvancedPrintString(os: OutputStream, o: Obj) returns (r: Outcome)
    requires os.Valid() && o.Str?
    modifies os
    ensures Done(r, PrintStringF(old(os.State()), o), os.State())
  {
    if o.hint.Some? {
      os.PutChar(OpenBracket);
      r := AdvancedPrintSimpleString(os, o.hint.value);
      if r.Fail? {
        return;
      }
      os.PutChar(CloseBracket);
    }
    r := AdvancedPrintSimpleString(os, o.val);
  }

  /** The state advancedPrintList measures the list in: after '(' with one more level of indentation. */
  function ListOpen(st: OutState): (r: OutState)
    ensures r == st.(out := st.out + [OpenParen], column := st.column + 1, indent := st.indent + 1)
  {
    PutCharF(st, OpenParen).(indent := st.indent + 1)
  }

  /** advancedPrintList lays a list out vertically exactly when its width is more than the room left on the line. */
  predicate Vertical(st: OutState, es: seq<Obj>) {
    ListWidth(ListOpen(st), es) > st.maxcolumn - (st.column + 1)
  }

  /** The end of advancedPrintList: a line break if fewer than two columns are left, the indentation back one level, ')'. */
  function ListClose(st: OutState): (r: OutState)
    ensures r == st.(out := r.out, column := r.column, indent := st.indent - 1)
  {
    var st1 := BreakBefore(st, 2);
    PutCharF(st1.(indent := st1.indent - 1), CloseParen)
  }

  /** advancedPrintObject: a line break when fewer than four columns are left, then the string or the list. */
  function PrintObjectF(st: OutState, o: Obj): (r: Result<OutState>)
    requires ValidOut(st)
    ensures st.byteSize == 8 ==> r.Ok?
    ensures r.Ok? ==> Keeps(st, r.value)
    decreases o, 0
  {
    var st1 := BreakBefore(st, 4);
    match o
    case Str(_, _) => PrintStringF(st1, o)
    case List(es) => PrintListF(st1, es)
  }

  /** advancedPrintList: '(' and one more level of indentation, the elements in order, the end of the list. */
  function PrintListF(st: OutState, es: seq<Obj>): (r: Result<OutState>)
    requires ValidOut(st)
    ensures st.byteSize == 8 ==> r.Ok?
    ensures r.Ok? ==> Keeps(st, r.value)
    decreases es, 2
  {
    var e := PrintElemsF(ListOpen(st), es, true, Vertical(st, es));
    if e.Err? then e else Ok(ListClose(e.value))
  }

  /** One pass of the loop of advancedPrintList: a line break (vertical) or a blank before every element but the first, then the element. */
  function PrintElemF(st: OutState, e: Obj, first: bool, vertical: bool): (r: Result<OutState>)
    requires ValidOut(st)
    ensures st.byteSize == 8 ==> r.Ok?
    ensures r.Ok? ==> Keeps(st, r.value)
    decreases e, 1
  {
    var st1 := if first then st else if vertical then NewLineF(st, Advanced) else PutCharF(st, Blank);
    PrintObjectF(st1, e)
  }

  /** The loop of advancedPrintList over the elements from the current one on. */
  function PrintElemsF(st: OutState, es: seq<Obj>, first: bool, vertical: bool): (r: Result<OutState>)
    requires ValidOut(st)
    ensures st.byteSize == 8 ==> r.Ok?
    ensures r.Ok? ==> Keeps(st, r.value)
    decreases es, 1
  {
    if |es| == 0 then Ok(st)
    else
      var e := PrintElemF(st, es[0], first, vertical);
      if e.Err? then e else PrintElemsF(e.value, es[1..], false, vertical)
  }

  method AdvancedPrintObject(os: OutputStream, o: Obj) returns (r: Outcome)
    requires os.Valid()
    modifies os
    ensures Done(r, PrintObjectF(old(os.State()), o), os.State())
    decreases o, 0
  {
    if os.maxcolumn > 0 && os.column > os.maxcolumn - 4 {
      os.NewLine(Advanced);
    }
    if o.Str? {
      r := AdvancedPrintString(os, o);
    } else {
      r := AdvancedPrintList(os, o.elems);
    }
  }

  method AdvancedPrintList(os: OutputStream, es: seq<Obj>) returns (r: Outcome)
    requires os.Valid()
    modifies os
    ensures Done(r, PrintListF(old(os.State()), es), os.State())
    decreases es
  {
    var vertical := OpenList(os, es);
    ghost var st1 := os.State();
    var first := true;
    var i := 0;
    while i < |es|
      invariant 0 <= i <= |es| && os.Valid()
      invariant first <==> i == 0
      invariant PrintElemsF(os.State(), es[i..], first, vertical) == PrintElemsF(st1, es, true, vertical)
    {
      r := PrintElement(os, es[i], first, vertical);
      if r.Fail? {
        return;
      }
      assert es[i..][1..] == es[i + 1..];
      i := i + 1;
      first := false;
    }
    CloseList(os);
    r := Pass;
  }

  /** The start of advancedPrintList: '(', one more level of indentation, and the choice of layout. */
  method OpenList(os: OutputStream, es: seq<Obj>) returns (vertical: bool)
    requires os.Valid()
    modifies os
    ensures os.Valid() && os.State() == ListOpen(old(os.State())) && vertical == Vertical(old(os.State()), es)
  {
    vertical := false;
    os.PutChar(OpenParen);
    os.indent := os.indent + 1;
    var w := AdvancedLengthList(os, es);
    if w > os.maxcolumn - os.column {
      vertical := true;
    }
  }

  /** The end of advancedPrintList. */
  method CloseList(os: OutputStream)
    requires os.Valid()
    modifies os
    ensures os.Valid() && os.State() == ListClose(old(os.State()))
  {
    if os.maxcolumn > 0 && os.column > os.maxcolumn - 2 {
      os.NewLine(Advanced);
    }
    os.indent := os.indent - 1;
    os.PutChar(CloseParen);
  }

  /** One pass of the loop of advancedPrintList. */
  method PrintElement(os: OutputStream, e: Obj, first: bool, vertical: bool) returns (r: Outcome)
    requires os.Valid()
    modifies os
    ensures Done(r, PrintElemF(old(os.State()), e, first, vertical), os.State())
    decreases e, 1
  {
    if !first {
      if vertical {
        os.NewLine(Advanced);
      } else {
        os.PutChar(Blank);
      }
    }
    r := AdvancedPrintObject(os, e);
  }

  /** With no maximum column a token is written as itself. */
  lemma TokenQuiet(st: OutState, s: seq<byte>)
    requires st.maxcolumn <= 0
    ensures PrintTokenF(st, s).out == st.out + s
  {
  }

  /** With no maximum column the quoted loop writes the bytes and nothing else. */
  lemma {:induction false} QuotedBodyQuiet(st: OutState, s: seq<byte>)
    requires st.maxcolumn <= 0
    ensures QuotedBodyF(st, s).out == st.out + s
    decreases |s|
  {
    if |s| > 0 {
      var st1 := PutCharF(st, s[0]);
      QuotedBodyQuiet(st1, s[1..]);
      assert st.out + [s[0]] + s[1..] == st.out + s;
    } else {
      assert st.out + s == st.out;
    }
  }

  /** With no maximum column a quoted string is the bytes between two double quotes. */
  lemma QuotedQuiet(st: OutState, s: seq<byte>)
    requires st.maxcolumn <= 0
    ensures PrintQuotedF(st, s).out == st.out + ([Quote] + s + [Quote])
  {
    QuotedBodyQuiet(PutCharF(st, Quote), s);
  }

  /**
   * What the reader of quoted strings keeps: a backslash followed by a line
   * feed stands for nothing, every other byte for itself.
   */
  function Splice(w: seq<byte>): seq<byte>
    decreases |w|
  {
    if |w| == 0 then []
    else if |w| >= 2 && w[0] == Backslash && w[1] == LineFeed then Splice(w[2..])
    else [w[0]] + Splice(w[1..])
  }

  /**
   * Whatever the maximum column, the line continuations the quoted loop
   * inserts are exactly what Splice drops: the bytes come back, for a
   * string without backslashes (as every quotable string is).
   */
  lemma {:induction false} QuotedBodySplice(st: OutState, s: seq<byte>)
    requires forall k :: 0 <= k < |s| ==> s[k] != Backslash
    ensures exists w :: QuotedBodyF(st, s).out == st.out + w && Splice(w) == s
    decreases |s|
  {
    if |s| == 0 {
      assert QuotedBodyF(st, s).out == st.out + [] && Splice([]) == s;
    } else {
      var st1 := QuotedBreak(st);
      var p := QuotedBreakShape(st);
      var st2 := PutCharF(st1, s[0]);
      QuotedBodySplice(st2, s[1..]);
      var w2 :| QuotedBodyF(st2, s[1..]).out == st2.out + w2 && Splice(w2) == s[1..];
      SpliceStep(p, s[0], w2);
      SpliceJoin(st.out, p, s[0], w2, s);
    }
  }

  /** The continuation the quoted loop may write before a byte. */
  lemma QuotedBreakShape(st: OutState) returns (p: seq<byte>)
    ensures p == [] || p == [Backslash, LineFeed]
    ensures QuotedBreak(st).out == st.out + p
  {
    if st.maxcolumn > 0 && st.column >= st.maxcolumn - 2 {
      p := [Backslash, LineFeed];
    } else {
      p := [];
      assert st.out + [] == st.out;
    }
  }

  lemma SpliceJoin(a: seq<byte>, p: seq<byte>, c: byte, w: seq<byte>, s: seq<byte>)
    requires |s| > 0 && c == s[0] && Splice(p + ([c] + w)) == [c] + s[1..]
    ensures Splice(p + ([c] + w)) == s && a + p + [c] + w == a + (p + ([c] + w))
  {
    assert [c] + s[1..] == s;
  }

  /** One step of Splice: an optional continuation, a byte that is not a backslash, the rest. */
  lemma SpliceStep(p: seq<byte>, c: byte, w: seq<byte>)
    requires p == [] || p == [Backslash, LineFeed]
    requires c != Backslash
    ensures Splice(p + ([c] + w)) == [c] + Splice(w)
  {
    var t := [c] + w;
    assert t[1..] == w;
    if p != [] {
      assert (p + t)[2..] == t;
    } else {
      assert p + t == t;
    }
  }

  /** A quotable string holds no backslash. */
  lemma QuotableHasNoBackslash(s: seq<byte>)
    requires QuotedEligible(s)
    ensures forall k :: 0 <= k < |s| ==> s[k] != Backslash
  {
  }

  /** A fresh hex region on a stream that never breaks a line holds the base16 digits of the bytes. */
  lemma HexRegionQuiet(c: OutState, s: seq<byte>)
    requires ValidOut(c) && c.byteSize == 4 && c.nBits == 0 && Quiet(c)
    ensures RegionF(c, s).out == c.out + HexEncode(s)
  {
    HexPutBytesQuiet(c, s);
    HexPutBytes(c, s);
    FlushShape(PutBytesF(c, s));
  }

  /** A fresh base64 region on a stream that never breaks a line holds the base64 digits of the bytes, padded. */
  lemma Base64RegionQuiet(c: OutState, s: seq<byte>)
    requires ValidOut(c) && c.byteSize == 6 && c.nBits == 0 && Quiet(c)
    ensures RegionF(c, s).out == c.out + Base64Encode(s)
  {
    Base64PutBytesQuiet(c, s);
  }

  /** With no maximum column a hex string is its base16 digits between two '#'. */
  lemma HexQuiet(st: OutState, s: seq<byte>)
    requires ValidOut(st) && st.byteSize == 8 && st.maxcolumn <= 0
    ensures PrintHexF(st, s).Ok? && PrintHexF(st, s).value.out == st.out + ([Hash] + HexEncode(s) + [Hash])
  {
    var s1 := PutCharF(st, Hash);
    var c := ChangeOutputByteSizeF(s1, 4, Advanced).value;
    HexRegionQuiet(c, s);
    var s2 := RegionF(c, s);
    AppendAssoc(st.out, s1.out, s2.out, [Hash], HexEncode(s));
    AppendAssoc(st.out, s2.out, PutCharF(s2, Hash).out, [Hash] + HexEncode(s), [Hash]);
  }

  /** With no maximum column a base64 string is its base64 digits, padded, between two '|'. */
  lemma Base64Quiet(st: OutState, s: seq<byte>)
    requires ValidOut(st) && st.byteSize == 8 && st.maxcolumn <= 0
    ensures PrintBase64F(st, s).Ok? && PrintBase64F(st, s).value.out == st.out + ([Bar] + Base64Encode(s) + [Bar])
  {
    var s1 := VarPutCharF(st, Bar);
    EightBitShown(st, Bar);
    var c := ChangeOutputByteSizeF(s1, 6, Advanced).value;
    Base64RegionQuiet(c, s);
    var s2 := RegionF(c, s);
    EightBitShown(s2, Bar);
    AppendAssoc(st.out, s1.out, s2.out, [Bar], Base64Encode(s));
    AppendAssoc(st.out, s2.out, VarPutCharF(s2, Bar).out, [Bar] + Base64Encode(s), [Bar]);
  }

  /**
   * With no maximum column (and an 8-bit stream, where nothing fails) every
   * simple string is printed in exactly as many characters as
   * advancedLengthSimpleString says: the widths follow the printer's choice.
   */
  lemma SimpleQuietWidth(st: OutState, s: seq<byte>)
    requires ValidOut(st) && st.byteSize == 8 && st.maxcolumn <= 0
    ensures PrintSimpleF(st, s).Ok? && |PrintSimpleF(st, s).value.out| == |st.out| + SimpleWidth(st, s)
  {
    if TokenEligible(st, s) {
      TokenQuiet(st, s);
    } else if QuotedEligible(s) {
      QuotedQuiet(st, s);
    } else if |s| <= 4 {
      HexQuiet(st, s);
    } else {
      Base64Quiet(st, s);
    }
  }

  /** The same for a string with its hint: two brackets and the two simple strings. */
  lemma StringQuietWidth(st: OutState, o: Obj)
    requires ValidOut(st) && st.byteSize == 8 && st.maxcolumn <= 0 && o.Str?
    ensures PrintStringF(st, o).Ok? && |PrintStringF(st, o).value.out| == |st.out| + StringWidth(st, o)
  {
    if o.hint.Some? {
      var s1 := PutCharF(st, OpenBracket);
      SimpleQuietWidth(s1, o.hint.value);
      SimpleWidthAnywhere(st, s1, o.hint.value);
      var s2 := PutCharF(PrintSimpleF(s1, o.hint.value).value, CloseBracket);
      SimpleQuietWidth(s2, o.val);
      SimpleWidthAnywhere(st, s2, o.val);
    } else {
      SimpleQuietWidth(st, o.val);
    }
  }

  /**
   * With no maximum column every list is laid out vertically, one element
   * per line: its width always exceeds the room the test computes.
   */
  lemma ListQuietVertical(st: OutState, es: seq<Obj>)
    requires st.maxcolumn <= 0 && st.column >= 0
    ensures Vertical(st, es)
  {
  }

  /** A string is printed, and the stream keeps its width, maximum column and indentation, whenever the stream is at width 8. */
  lemma PrintNeverFailsAtByteWidth(st: OutState, o: Obj)
    requires ValidOut(st) && st.byteSize == 8
    ensures PrintObjectF(st, o).Ok? && Keeps(st, PrintObjectF(st, o).value)
  {
  }
}
