/**
 * The scanning routines of sexp-input.c as methods on an InputStream, each
 * proved to leave the stream, and the simple string it fills, exactly as
 * the corresponding function of SexpScanSpec says. A fatal error is the
 * returned failure; on success the stream is ready for the next routine.
 */
module SexpScanner {
  import opened SexpTypes
  import opened SexpChars
  import opened SexpInput
  import opened SexpBasic
  import opened SexpScanSpec

  /** The method's outcome and new stream state agree with a state-only specification. */
  predicate StateMatches(r: Outcome, f: Result<InState>, st: InState) {
    && (r.Fail? <==> f.Err?)
    && (f.Err? ==> r.error == f.error)
    && (f.Ok? ==> st == f.value)
  }

  /** The method's outcome, stream state and result value agree with the specification. */
  predicate Matches<T(==)>(r: Outcome, f: Result<Scanned<T>>, st: InState, v: T) {
    && (r.Fail? <==> f.Err?)
    && (f.Err? ==> r.error == f.error)
    && (f.Ok? ==> st == f.value.st && v == f.value.v)
  }

  /** skipWhiteSpace */
  method SkipWhiteSpace(ins: InputStream) returns (r: Outcome)
    requires ins.Valid()
    modifies ins
    ensures StateMatches(r, SkipWhiteSpaceF(old(ins.State())), ins.State())
  {
    ghost var st0 := ins.State();
    while IsWhiteSpace(ins.nextChar)
      invariant ins.Valid() && SkipWhiteSpaceF(ins.State()) == SkipWhiteSpaceF(st0)
      decreases Measure(ins.State())
    {
      :- ins.GetChar();
    }
    return Pass;
  }

  /** skipChar */
  method SkipChar(ins: InputStream, c: char) returns (r: Outcome)
    requires ins.Valid()
    modifies ins
    ensures StateMatches(r, SkipCharF(old(ins.State()), c), ins.State())
  {
    if ins.nextChar == c as int {
      r := ins.GetChar();
    } else {
      r := Fail(UnexpectedChar(ins.nextChar, c as int));
    }
  }

  /** scanToken */
  method ScanToken(ins: InputStream, ss: SimpleString) returns (r: Outcome)
    requires ins.Valid() && ss.Valid()
    modifies ins, ss, ss.str
    ensures ss.Valid() && (ss.str == old(ss.str) || fresh(ss.str))
    ensures Matches(r, ScanTokenF(old(ins.State()), old(ss.Contents())), ins.State(), ss.Contents())
  {
    r := SkipWhiteSpace(ins);
    if r.Fail? {
      return;
    }
    ghost var st1, acc1 := ins.State(), ss.Contents();
    while IsTokenChar(ins.nextChar)
      invariant ins.Valid() && ss.Valid() && (ss.str == old(ss.str) || fresh(ss.str))
      invariant TokenLoop(ins.State(), ss.Contents()) == TokenLoop(st1, acc1)
      decreases Measure(ins.State())
    {
      ss.Append(ins.nextChar);
      :- ins.GetChar();
    }
    return Pass;
  }

  /** scanToEOF */
  method ScanToEOF(ins: InputStream) returns (r: Outcome, o: Obj)
    requires ins.Valid()
    modifies ins
    ensures Matches(r, ScanToEOFF(old(ins.State())), ins.State(), o)
  {
    var ss := new SimpleString();
    var s := new SexpString();
    s.SetString(ss);
    o := Str(None, []);
    :- SkipWhiteSpace(ins);
    ghost var st1 := ins.State();
    while ins.nextChar != EOF
      invariant ins.Valid() && ss.Valid() && fresh(ss.str)
      invariant ToEOFLoop(ins.State(), ss.Contents()) == ToEOFLoop(st1, [])
      decreases Measure(ins.State())
    {
      ss.Append(ins.nextChar);
      :- ins.GetChar();
    }
    return Pass, Str(None, ss.Contents());
  }

  /** scanDecimal */
  method ScanDecimal(ins: InputStream) returns (r: Outcome, value: nat)
    requires ins.Valid()
    modifies ins
    ensures Matches(r, ScanDecimalF(old(ins.State())), ins.State(), value)
  {
    ghost var st0 := ins.State();
    value := 0;
    var i: nat := 0;
    while IsDecDigit(ins.nextChar)
      invariant ins.Valid() && ScanDecimalLoop(ins.State(), value, i) == ScanDecimalLoop(st0, 0, 0)
      decreases Measure(ins.State())
    {
      value := value * 10 + DecValue(ins.nextChar);
      :- ins.GetChar();
      if i > 8 {
        return Fail(DecimalTooLong(value)), value;
      }
      i := i + 1;
    }
    return Pass, value;
  }

  /** scanVerbatimString */
  method ScanVerbatimString(ins: InputStream, ss: SimpleString, length: int) returns (r: Outcome)
    requires ins.Valid() && ss.Valid()
    modifies ins, ss, ss.str
    ensures ss.Valid() && (ss.str == old(ss.str) || fresh(ss.str))
    ensures Matches(r, ScanVerbatimF(old(ins.State()), old(ss.Contents()), length), ins.State(), ss.Contents())
  {
    r := SkipWhiteSpace(ins);
    if r.Fail? {
      return;
    }
    :- SkipChar(ins, ':');
    if length == -1 {
      return Fail(VerbatimNoLength);
    }
    r := VerbatimCopy(ins, ss, length);
  }

  /** The copy loop of scanVerbatimString: exactly `length` characters, whatever they are. */
  method VerbatimCopy(ins: InputStream, ss: SimpleString, length: int) returns (r: Outcome)
    requires ins.Valid() && ss.Valid()
    modifies ins, ss, ss.str
    ensures ss.Valid() && (ss.str == old(ss.str) || fresh(ss.str))
    ensures Matches(r, VerbatimLoop(old(ins.State()), old(ss.Contents()), 0, length), ins.State(), ss.Contents())
  {
    ghost var st0, acc0 := ins.State(), ss.Contents();
    var i := 0;
    while i < length
      invariant ins.Valid() && ss.Valid() && (ss.str == old(ss.str) || fresh(ss.str))
      invariant VerbatimLoop(ins.State(), ss.Contents(), i, length) == VerbatimLoop(st0, acc0, 0, length)
      decreases length - i
    {
      ss.Append(ins.nextChar);
      :- ins.GetChar();
      i := i + 1;
    }
    return Pass;
  }

  /** The octal digits of an \ooo escape. */
  method OctalEscape(ins: InputStream) returns (r: Outcome, val: nat)
    requires ins.Valid()
    modifies ins
    ensures Matches(r, OctalLoop(old(ins.State()), 0, 0), ins.State(), val)
  {
    ghost var st0 := ins.State();
    val := 0;
    var j: nat := 0;
    while j < 3
      invariant j <= 3 && ins.Valid() && OctalLoop(ins.State(), val, j) == OctalLoop(st0, 0, 0)
      decreases 3 - j
    {
      var c := ins.nextChar;
      if IsOctalDigit(c) {
        val := val * 8 + (c - '0' as int);
        if j < 2 {
          :- ins.GetChar();
        }
      } else {
        return Fail(OctalTooShort(val)), val;
      }
      j := j + 1;
    }
    return Pass, val;
  }

  /** The hex digits of an \xhh escape. */
  method HexEscape(ins: InputStream) returns (r: Outcome, val: nat)
    requires ins.Valid()
    modifies ins
    ensures Matches(r, HexEscLoop(old(ins.State()), 0, 0), ins.State(), val)
  {
    ghost var st0 := ins.State();
    val := 0;
    var j: nat := 0;
    while j < 2
      invariant j <= 2 && ins.Valid() && HexEscLoop(ins.State(), val, j) == HexEscLoop(st0, 0, 0)
      decreases 2 - j
    {
      var c := ins.nextChar;
      if IsHexDigit(c) {
        val := val * 16 + HexValue(c);
        if j < 1 {
          :- ins.GetChar();
        }
      } else {
        return Fail(HexEscapeTooShort(val)), val;
      }
      j := j + 1;
    }
    return Pass, val;
  }

  /** An escape sequence whose backslash has been consumed. */
  method Escape(ins: InputStream, ss: SimpleString) returns (r: Outcome)
    requires ins.Valid() && ss.Valid()
    modifies ins, ss, ss.str
    ensures ss.Valid() && (ss.str == old(ss.str) || fresh(ss.str))
    ensures var f := EscapeF(old(ins.State()), old(ss.Contents()));
      && (r.Fail? <==> f.Err?)
      && (f.Err? ==> r.error == f.error)
      && (f.Ok? ==> ins.State() == f.value.st && ss.Contents() == f.value.acc)
  {
    var c := ins.nextChar;
    var e := SimpleEscape(c);
    if e.Some? {
      ss.Append(e.value);
      r := ins.GetChar();
    } else if IsOctalDigit(c) {
      r := OctalEscapeByte(ins, ss);
    } else if c == 'x' as int {
      r := HexEscapeByte(ins, ss);
    } else if c == '\n' as int || c == '\r' as int {
      r := LineContinuation(ins);
    } else {
      ins.Warn(UnknownEscape(c));
      r := ins.GetChar();
    }
  }

  /** An \ooo escape. */
  method OctalEscapeByte(ins: InputStream, ss: SimpleString) returns (r: Outcome)
    requires ins.Valid() && ss.Valid()
    modifies ins, ss, ss.str
    ensures ss.Valid() && (ss.str == old(ss.str) || fresh(ss.str))
    ensures var f := OctalEscapeF(old(ins.State()), old(ss.Contents()));
      && (r.Fail? <==> f.Err?)
      && (f.Err? ==> r.error == f.error)
      && (f.Ok? ==> ins.State() == f.value.st && ss.Contents() == f.value.acc)
  {
    var val;
    r, val := OctalEscape(ins);
    if r.Fail? {
      return;
    }
    if val > 255 {
      return Fail(OctalTooBig(val));
    }
    assert LowByte(val) == val;
    ss.Append(val);
    r := ins.GetChar();
  }

  /** An \xhh escape. */
  method HexEscapeByte(ins: InputStream, ss: SimpleString) returns (r: Outcome)
    requires ins.Valid() && ss.Valid()
    modifies ins, ss, ss.str
    ensures ss.Valid() && (ss.str == old(ss.str) || fresh(ss.str))
    ensures var f := HexEscapeF(old(ins.State()), old(ss.Contents()));
      && (r.Fail? <==> f.Err?)
      && (f.Err? ==> r.error == f.error)
      && (f.Ok? ==> ins.State() == f.value.st && ss.Contents() == f.value.acc)
  {
    r := ins.GetChar();
    if r.Fail? {
      return;
    }
    var val;
    r, val := HexEscape(ins);
    if r.Fail? {
      return;
    }
    ss.Append(val);
    r := ins.GetChar();
  }

  /** A backslash before a line end. */
  method LineContinuation(ins: InputStream) returns (r: Outcome)
    requires ins.Valid()
    modifies ins
    ensures var f := LineContinuationF(old(ins.State()), []);
      && (r.Fail? <==> f.Err?)
      && (f.Err? ==> r.error == f.error)
      && (f.Ok? ==> ins.State() == f.value.st)
  {
    var c := ins.nextChar;
    :- ins.GetChar();
    var pair := if c == '\n' as int then '\r' as int else '\n' as int;
    if ins.nextChar == pair {
      r := ins.GetChar();
    } else {
      r := Pass;
    }
  }

  /** One pass of the body of the quoted-string loop. */
  method QuotedPass(ins: InputStream, ss: SimpleString, length: int) returns (r: Outcome, done: bool)
    requires ins.Valid() && ss.Valid()
    modifies ins, ss, ss.str
    ensures ss.Valid() && (ss.str == old(ss.str) || fresh(ss.str))
    ensures var f := QuotedIteration(old(ins.State()), old(ss.Contents()), length);
      && (r.Fail? <==> f.Err?)
      && (f.Err? ==> r.error == f.error)
      && (f.Ok? ==> ins.State() == f.value.st && ss.Contents() == f.value.acc && done == f.value.done)
  {
    done := false;
    if ins.nextChar == '"' as int {
      if length == -1 || ss.length == length {
        :- SkipChar(ins, '"');
        return Pass, true;
      }
      return Fail(QuotedTooEarly(length)), false;
    } else if ins.nextChar == '\\' as int {
      :- ins.GetChar();
      r := Escape(ins, ss);
    } else {
      ss.Append(ins.nextChar);
      :- ins.GetChar();
      return Pass, false;
    }
  }

  /**
   * scanQuotedString, corrected: fails at the end of the input, and when the
   * string grows past its declared length, instead of looping forever or
   * returning the longer string.
   */
  method ScanQuotedString(ins: InputStream, ss: SimpleString, length: int) returns (r: Outcome)
    requires ins.Valid() && ss.Valid()
    modifies ins, ss, ss.str
    ensures ss.Valid() && (ss.str == old(ss.str) || fresh(ss.str))
    ensures Matches(r, ScanQuotedF(old(ins.State()), old(ss.Contents()), length), ins.State(), ss.Contents())
  {
    r := SkipChar(ins, '"');
    if r.Fail? {
      return;
    }
    ghost var st1, acc1 := ins.State(), ss.Contents();
    while length == -1 || ss.length <= length
      invariant ins.Valid() && ss.Valid() && (ss.str == old(ss.str) || fresh(ss.str))
      invariant QuotedLoop(ins.State(), ss.Contents(), length) == QuotedLoop(st1, acc1, length)
      decreases Measure(ins.State())
    {
      if ins.nextChar == EOF {
        return Fail(UnterminatedQuoted);
      }
      var done;
      r, done := QuotedPass(ins, ss, length);
      if r.Fail? || done {
        return;
      }
    }
    return Fail(QuotedTooLong(length));
  }

  /** scanHexString and scanBase64String: a region of the given width between two delimiters. */
  method ScanRegion(ins: InputStream, ss: SimpleString, length: int, size: int, delim: char) returns (r: Outcome)
    requires ins.Valid() && ss.Valid() && (size == 4 || size == 6)
    modifies ins, ss, ss.str
    ensures ss.Valid() && (ss.str == old(ss.str) || fresh(ss.str))
    ensures Matches(r, ScanRegionF(old(ins.State()), old(ss.Contents()), length, size, delim), ins.State(), ss.Contents())
  {
    ins.ChangeInputByteSize(size);
    SexpBits.Pow2Values();
    :- SkipChar(ins, delim);
    :- RegionCopy(ins, ss, size, delim);
    :- SkipChar(ins, delim);
    if ss.length != length && length >= 0 {
      ins.Warn(if size == 4 then HexLengthMismatch(ss.length, length) else Base64LengthMismatch(ss.length, length));
    }
    return Pass;
  }

  /** The copy loop of scanHexString and scanBase64String. */
  method RegionCopy(ins: InputStream, ss: SimpleString, size: int, delim: char) returns (r: Outcome)
    requires ins.Valid() && ss.Valid()
    modifies ins, ss, ss.str
    ensures ss.Valid() && (ss.str == old(ss.str) || fresh(ss.str))
    ensures Matches(r, RegionLoop(old(ins.State()), old(ss.Contents()), size, delim), ins.State(), ss.Contents())
  {
    ghost var st0, acc0 := ins.State(), ss.Contents();
    while ins.nextChar != EOF && (ins.nextChar != delim as int || ins.byteSize == size)
      invariant ins.Valid() && ss.Valid() && (ss.str == old(ss.str) || fresh(ss.str))
      invariant RegionLoop(ins.State(), ss.Contents(), size, delim) == RegionLoop(st0, acc0, size, delim)
      decreases Measure(ins.State())
    {
      ss.Append(ins.nextChar);
      :- ins.GetChar();
    }
    return Pass;
  }

  /** scanHexString */
  method ScanHexString(ins: InputStream, ss: SimpleString, length: int) returns (r: Outcome)
    requires ins.Valid() && ss.Valid()
    modifies ins, ss, ss.str
    ensures ss.Valid() && (ss.str == old(ss.str) || fresh(ss.str))
    ensures Matches(r, ScanHexF(old(ins.State()), old(ss.Contents()), length), ins.State(), ss.Contents())
  {
    r := ScanRegion(ins, ss, length, 4, '#');
  }

  /** scanBase64String */
  method ScanBase64String(ins: InputStream, ss: SimpleString, length: int) returns (r: Outcome)
    requires ins.Valid() && ss.Valid()
    modifies ins, ss, ss.str
    ensures ss.Valid() && (ss.str == old(ss.str) || fresh(ss.str))
    ensures Matches(r, ScanBase64F(old(ins.State()), old(ss.Contents()), length), ins.State(), ss.Contents())
  {
    r := ScanRegion(ins, ss, length, 6, '|');
  }

  /** scanSimpleString: returns a new simple string. */
  method ScanSimpleString(ins: InputStream) returns (r: Outcome, ss: SimpleString)
    requires ins.Valid()
    modifies ins
    ensures fresh(ss) && fresh(ss.str) && ss.Valid()
    ensures Matches(r, ScanSimpleStringF(old(ins.State())), ins.State(), ss.Contents())
  {
    ss := new SimpleString();
    :- SkipWhiteSpace(ins);
    var c := ins.nextChar;
    if IsTokenChar(c) && !IsDecDigit(c) {
      :- ScanToken(ins, ss);
    } else if IsDecDigit(c) || c == '"' as int || c == '#' as int || c == '|' as int || c == ':' as int {
      :- ScanLengthAndBody(ins, ss);
    } else {
      return Fail(IllegalChar(ins.count, c)), ss;
    }
    if ss.length == 0 {
      ins.Warn(ZeroLength);
    }
    return Pass, ss;
  }

  /** The second branch of scanSimpleString: an optional length and then the string it introduces, into the empty `ss`. */
  method ScanLengthAndBody(ins: InputStream, ss: SimpleString) returns (r: Outcome)
    requires ins.Valid() && ss.Valid() && ss.Contents() == []
    requires IsDecDigit(ins.nextChar) || ins.nextChar == '"' as int || ins.nextChar == '#' as int
      || ins.nextChar == '|' as int || ins.nextChar == ':' as int
    modifies ins, ss, ss.str
    ensures ss.Valid() && (ss.str == old(ss.str) || fresh(ss.str))
    ensures Matches(r, ScanLengthAndBodyF(old(ins.State())), ins.State(), ss.Contents())
  {
    var length: int := -1;
    if IsDecDigit(ins.nextChar) {
      var value;
      r, value := ScanDecimal(ins);
      if r.Fail? {
        return;
      }
      length := value;
    }
    if ins.nextChar == '"' as int {
      r := ScanQuotedString(ins, ss, length);
    } else if ins.nextChar == '#' as int {
      r := ScanHexString(ins, ss, length);
    } else if ins.nextChar == '|' as int {
      r := ScanBase64String(ins, ss, length);
    } else if ins.nextChar == ':' as int {
      r := ScanVerbatimString(ins, ss, length);
    } else {
      r := Pass;
    }
  }

  /** scanString: builds the string object from its hint and value. */
  method ScanString(ins: InputStream) returns (r: Outcome, o: Obj)
    requires ins.Valid()
    modifies ins
    ensures Matches(r, ScanStringF(old(ins.State())), ins.State(), o)
  {
    var s := new SexpString();
    var hint: Option<seq<byte>> := None;
    o := Str(None, []);
    if ins.nextChar == '[' as int {
      var h;
      r, h := ScanHint(ins);
      if r.Fail? {
        return;
      }
      s.SetPresentationHint(h);
      hint := Some(h.Contents());
    }
    var v;
    r, v := ScanSimpleString(ins);
    if r.Fail? {
      return;
    }
    s.SetString(v);
    o := Str(hint, v.Contents());
  }

  /** The presentation hint of scanString, as a new simple string. */
  method ScanHint(ins: InputStream) returns (r: Outcome, h: SimpleString)
    requires ins.Valid()
    modifies ins
    ensures fresh(h) && fresh(h.str) && h.Valid()
    ensures Matches(r, ScanHintF(old(ins.State())), ins.State(), h.Contents())
  {
    h := new SimpleString();
    :- SkipChar(ins, '[');
    r, h := ScanSimpleString(ins);
    if r.Fail? {
      return;
    }
    :- SkipWhiteSpace(ins);
    :- SkipChar(ins, ']');
    :- SkipWhiteSpace(ins);
  }

  /** scanObject */
  method ScanObject(ins: InputStream) returns (r: Outcome, o: Obj)
    requires ins.Valid()
    modifies ins
    ensures Matches(r, ScanObjectF(old(ins.State())), ins.State(), o)
    decreases Measure(ins.State()), 1
  {
    o := List([]);
    :- SkipWhiteSpace(ins);
    if ins.nextChar == '{' as int {
      ins.ChangeInputByteSize(6);
      SexpBits.Pow2Values();
      :- SkipChar(ins, '{');
      r, o := ScanObject(ins);
      if r.Fail? {
        return;
      }
      :- SkipChar(ins, '}');
      return Pass, o;
    } else if ins.nextChar == '(' as int {
      r, o := ScanList(ins);
    } else {
      r, o := ScanString(ins);
    }
  }

  /** scanList: the elements are added to a new list object in input order. */
  method ScanList(ins: InputStream) returns (r: Outcome, o: Obj)
    requires ins.Valid()
    modifies ins
    ensures Matches(r, ScanListF(old(ins.State())), ins.State(), o)
    decreases Measure(ins.State()), 0
  {
    o := List([]);
    :- SkipChar(ins, '(');
    :- SkipWhiteSpace(ins);
    r, o := ListFirst(ins);
  }

  /** The first element of scanList and the loop over the rest. */
  method ListFirst(ins: InputStream) returns (r: Outcome, o: Obj)
    requires ins.Valid()
    modifies ins
    ensures Matches(r, ListFirstF(old(ins.State())), ins.State(), o)
    decreases Measure(ins.State()), 3
  {
    ghost var st0 := ins.State();
    o := List([]);
    var list := new SexpList();
    if ins.nextChar != ')' as int {
      var e;
      r, e := ScanObject(ins);
      if r.Fail? {
        return;
      }
      assert ScanObjectF(st0) == Ok(Scanned(e, ins.State()));
      list.Add(e);
      assert list.elems == [e];
      assert ListFirstF(st0) == ListLoop(ins.State(), [e]);
    } else {
      assert ListFirstF(st0) == ListLoop(ins.State(), list.elems);
    }
    r, o := ListElements(ins, list);
  }

  /** The element loop of scanList: reads objects into `list` up to the closing parenthesis. */
  method ListElements(ins: InputStream, list: SexpList) returns (r: Outcome, o: Obj)
    requires ins.Valid()
    modifies ins, list
    ensures Matches(r, ListLoop(old(ins.State()), old(list.elems)), ins.State(), o)
    decreases Measure(ins.State()), 2
  {
    ghost var st0, elems0 := ins.State(), list.elems;
    o := List([]);
    while true
      invariant ins.Valid() && Measure(ins.State()) <= Measure(st0)
      invariant ListLoop(ins.State(), list.elems) == ListLoop(st0, elems0)
      decreases Measure(ins.State())
    {
      :- SkipWhiteSpace(ins);
      if ins.nextChar == ')' as int {
        :- SkipChar(ins, ')');
        return Pass, List(list.elems);
      }
      var e;
      r, e := ScanObject(ins);
      if r.Fail? {
        return;
      }
      list.Add(e);
    }
  }
}
