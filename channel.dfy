/**
 * What the output channel of sexp-output.c writes: the line breaks of
 * newLine, the digits varPutChar writes at each width, and the padding of
 * flushOutput, stated against the reference encodings of RFC 4648
 * (section 8 for base16, section 4 with the padding of section 3.2 for
 * base64).
 *
 * Line breaks may fall anywhere in a region, so most facts are stated for
 * the Visible part of the output, the bytes that are not white space; for a
 * Quiet stream, one that never breaks lines, they hold for the output itself.
 */
module SexpChannel {
  import opened SexpTypes
  import opened SexpChars
  import opened SexpBits
  import opened SexpOutput

  /** The bytes of s that are not white space, in order. */
  function Visible(s: seq<byte>): seq<byte>
    decreases |s|
  {
    if |s| == 0 then []
    else Visible(s[..|s| - 1]) + (if IsWhiteSpace(s[|s| - 1]) then [] else [s[|s| - 1]])
  }

  lemma {:induction false} VisibleAppend(a: seq<byte>, b: seq<byte>)
    ensures Visible(a + b) == Visible(a) + Visible(b)
    decreases |b|
  {
    if |b| == 0 {
      assert a + b == a;
    } else {
      var b' := b[..|b| - 1];
      assert (a + b)[..|a + b| - 1] == a + b';
      VisibleAppend(a, b');
    }
  }

  /** Appending one byte that is not white space. */
  lemma VisibleAppendShown(a: seq<byte>, d: byte)
    requires !IsWhiteSpace(d)
    ensures Visible(a + [d]) == Visible(a) + [d]
  {
    VisibleAppend(a, [d]);
    assert [d][..0] == [];
  }

  /** Blanks are white space. */
  lemma {:induction false} VisibleBlanks(n: nat)
    ensures Visible(Blanks(n)) == []
    decreases n
  {
    if n > 0 {
      assert Blanks(n)[..n - 1] == Blanks(n - 1);
      VisibleBlanks(n - 1);
    }
  }

  /** A stream that will never write a line break: canonical mode, or no maximum column. */
  predicate Quiet(st: OutState) {
    st.mode == Canonical || st.maxcolumn <= 0
  }

  /** The test of the indentation loop is exactly "fewer blanks than IndentWidth so far". */
  lemma IndentTest(i: nat, indent: int, maxcolumn: int)
    ensures (i < indent && 4 * i < maxcolumn) <==> i < IndentWidth(indent, maxcolumn)
  {
  }

  lemma {:induction false} IndentLoopShape(st: OutState, i: nat)
    requires i <= IndentWidth(st.indent, st.maxcolumn)
    ensures var w := IndentWidth(st.indent, st.maxcolumn);
      IndentLoop(st, i) == st.(out := st.out + Blanks(w - i), column := st.column + (w - i))
    decreases IndentWidth(st.indent, st.maxcolumn) - i
  {
    var w := IndentWidth(st.indent, st.maxcolumn);
    IndentTest(i, st.indent, st.maxcolumn);
    if i < w {
      var st' := PutCharF(st, ' ' as int);
      IndentLoopShape(st', i + 1);
      assert Blanks(w - i) == [Blank] + Blanks(w - (i + 1));
    } else {
      assert Blanks(0) == [];
    }
  }

  /**
   * newLine writes nothing in canonical mode; otherwise a line feed that
   * resets the column, followed in advanced mode by one blank per
   * indentation level, but never more than a quarter of maxcolumn.
   */
  lemma NewLineShape(st: OutState, m: Mode)
    ensures m == Canonical ==> NewLineF(st, m) == st
    ensures m == Base64 ==> NewLineF(st, m) == st.(out := st.out + [LineFeed], column := 0)
    ensures m == Advanced ==> var w := IndentWidth(st.indent, st.maxcolumn);
      NewLineF(st, m) == st.(out := st.out + [LineFeed] + Blanks(w), column := w)
  {
    if m == Advanced {
      IndentLoopShape(PutCharF(st, '\n' as int).(column := 0), 0);
    }
  }

  /** A line break shows nothing. */
  lemma NewLineInvisible(st: OutState, m: Mode)
    ensures Visible(NewLineF(st, m).out) == Visible(st.out)
  {
    NewLineShape(st, m);
    var w := IndentWidth(st.indent, st.maxcolumn);
    if m == Base64 {
      VisibleAppend(st.out, [LineFeed]);
      assert [LineFeed][..0] == [];
    } else if m == Advanced {
      VisibleAppend(st.out, [LineFeed]);
      assert [LineFeed][..0] == [];
      VisibleAppend(st.out + [LineFeed], Blanks(w));
      VisibleBlanks(w);
    }
  }

  /** A line break before a digit shows nothing, and a quiet stream never writes one. */
  lemma BreakInvisible(st: OutState, c: int)
    ensures Visible(BreakIfDue(st, c).out) == Visible(st.out)
    ensures Quiet(st) ==> BreakIfDue(st, c).out == st.out
  {
    NewLineInvisible(st, st.mode);
    NewLineShape(st, st.mode);
  }

  /** One pass of the digit loop writes a due line break and then the top digit. */
  lemma EmitStepOut(st: OutState, c: byte)
    requires LoopState(st) && st.nBits >= st.byteSize
    ensures var r := EmitStep(st, c);
      && r.out == BreakIfDue(st, c).out + [DigitChar(st.byteSize, TopDigit(st))]
      && r.column == BreakIfDue(st, c).column + 1
  {
  }

  /** One pass of the digit loop, seen from outside: the digit, after a break that shows nothing. */
  lemma EmitStepShape(st: OutState, c: byte)
    requires LoopState(st) && st.nBits >= st.byteSize
    ensures var r := EmitStep(st, c); var d := DigitChar(st.byteSize, TopDigit(st));
      && (st.byteSize != 8 ==> Visible(r.out) == Visible(st.out) + [d])
      && (Quiet(st) ==> r.out == st.out + [d])
      && (!BreakDue(st, c) ==> r.out == st.out + [d] && r.column == st.column + 1)
  {
    var d := DigitChar(st.byteSize, TopDigit(st));
    EmitStepOut(st, c);
    BreakInvisible(st, c);
    if st.byteSize != 8 {
      assert !IsWhiteSpace(d);
      VisibleAppendShown(BreakIfDue(st, c).out, d);
    }
  }

  /** Two digits appended one after the other. */
  lemma AppendTwo(a: seq<byte>, x: byte, y: byte)
    ensures a + [x] + [y] == a + [x, y]
  {
  }

  /** varPutChar is the digit loop run on the pending bits with the byte below them. */
  lemma VarPutCharUnfold(st: OutState, c: int)
    requires ValidOut(st)
    ensures var b := LowByte(c); var s0 := st.(bits := st.bits * 256 + b, nBits := st.nBits + 8);
      LoopState(s0) && VarPutCharF(st, c) == EmitLoop(s0, b)
  {
    TakeByteState(st, LowByte(c));
  }

  /** The same for a byte, which joins the pending bits unchanged. */
  lemma VarPutByteUnfold(st: OutState, c: byte)
    requires ValidOut(st)
    ensures var s0 := st.(bits := st.bits * 256 + c, nBits := st.nBits + 8);
      LoopState(s0) && VarPutCharF(st, c) == EmitLoop(s0, c)
  {
    VarPutCharUnfold(st, c);
  }

  /** One unfolding of the digit loop when a whole digit is pending. */
  lemma EmitLoopUnfold(st: OutState, c: byte)
    requires LoopState(st) && st.nBits >= st.byteSize
    ensures EmitLoop(st, c) == EmitLoop(EmitStep(st, c), c)
  {
  }

  /** The last pass of the digit loop, when exactly one digit is pending: that digit, and nothing left. */
  lemma FinalDigit(st: OutState, c: byte)
    requires LoopState(st) && st.byteSize != 8 && st.nBits == st.byteSize
    ensures var r := EmitLoop(st, c); var d := DigitChar(st.byteSize, st.bits);
      && r.nBits == 0 && r.bits == 0 && r.base64Count == st.base64Count + 1
      && Visible(r.out) == Visible(st.out) + [d]
      && (Quiet(st) ==> r.out == st.out + [d])
  {
    Pow2Values();
    assert TopDigit(st) == st.bits && BitsBelow(st) == 0;
    EmitStepShape(st, c);
    EmitLoopUnfold(st, c);
    assert EmitStep(st, c).nBits == 0;
  }

  /** The digit loop with exactly two digits pending: both, high first, and nothing left. */
  lemma TwoDigits(st: OutState, c: byte)
    requires LoopState(st) && st.byteSize != 8 && st.nBits == 2 * st.byteSize
    ensures var r := EmitLoop(st, c);
      var ds := [DigitChar(st.byteSize, TopDigit(st)), DigitChar(st.byteSize, BitsBelow(st))];
      && r.nBits == 0 && r.bits == 0 && r.base64Count == st.base64Count + 2
      && Visible(r.out) == Visible(st.out) + ds
  {
    var s1 := EmitStep(st, c);
    var d1, d2 := DigitChar(st.byteSize, TopDigit(st)), DigitChar(st.byteSize, BitsBelow(st));
    EmitStepShape(st, c);
    assert s1.bits == BitsBelow(st) && s1.nBits == s1.byteSize;
    EmitLoopUnfold(st, c);
    FinalDigit(s1, c);
    AppendTwo(Visible(st.out), d1, d2);
  }

  /** The same two digits, as the whole of what a quiet stream writes. */
  lemma TwoDigitsQuiet(st: OutState, c: byte)
    requires LoopState(st) && st.byteSize != 8 && st.nBits == 2 * st.byteSize && Quiet(st)
    ensures EmitLoop(st, c).out == st.out + [DigitChar(st.byteSize, TopDigit(st)), DigitChar(st.byteSize, BitsBelow(st))]
  {
    var s1 := EmitStep(st, c);
    var d1, d2 := DigitChar(st.byteSize, TopDigit(st)), DigitChar(st.byteSize, BitsBelow(st));
    EmitStepShape(st, c);
    assert s1.bits == BitsBelow(st) && s1.nBits == s1.byteSize && Quiet(s1);
    EmitLoopUnfold(st, c);
    FinalDigit(s1, c);
    AppendTwo(st.out, d1, d2);
  }

  /** The two digits of a byte that has joined an empty hex channel. */
  lemma HexPending(s0: OutState, b: byte)
    requires LoopState(s0) && s0.byteSize == 4 && s0.nBits == 8 && s0.bits == b
    ensures TopDigit(s0) == b / 16 && BitsBelow(s0) == b % 16
  {
    Pow2Values();
    DivUnique(b, 16, b / 16, b % 16);
  }

  /**
   * In a hex region every byte becomes exactly two digits, high nibble
   * first, and nothing stays pending.
   */
  lemma HexPutChar(st: OutState, c: int)
    requires ValidOut(st) && st.byteSize == 4
    ensures var r := VarPutCharF(st, c); var b := LowByte(c); var ds := [HexDigit(b / 16), HexDigit(b % 16)];
      && r.nBits == 0 && r.base64Count == st.base64Count + 2
      && Visible(r.out) == Visible(st.out) + ds
      && (Quiet(st) ==> r.out == st.out + ds)
  {
    var b := LowByte(c);
    VarPutCharUnfold(st, c);
    var s0 := st.(bits := st.bits * 256 + b, nBits := st.nBits + 8);
    HexPending(s0, b);
    TwoDigits(s0, b);
    if Quiet(st) {
      TwoDigitsQuiet(s0, b);
    }
  }

  /** Where a line break falls and what it writes depend only on the fields of the line, not on the pending bits. */
  lemma BreakIfDueFields(st: OutState, st': OutState, c: int)
    requires st' == st.(bits := st'.bits, nBits := st'.nBits, base64Count := st'.base64Count)
    ensures BreakIfDue(st', c).out == BreakIfDue(st, c).out && BreakIfDue(st', c).column == BreakIfDue(st, c).column
  {
    NewLineShape(st, st.mode);
    NewLineShape(st', st'.mode);
  }

  /** At width 8 a byte goes out as itself, after a break only for braces, '#' and '|'. */
  lemma EightBitPutChar(st: OutState, c: int)
    requires ValidOut(st) && st.byteSize == 8
    ensures var r := VarPutCharF(st, c); var b := LowByte(c);
      && r.nBits == 0 && r.base64Count == st.base64Count + 1
      && r.out == BreakIfDue(st, b).out + [b] && r.column == BreakIfDue(st, b).column + 1
  {
    var b := LowByte(c);
    VarPutCharUnfold(st, c);
    Pow2Values();
    var s0 := st.(bits := st.bits * 256 + b, nBits := st.nBits + 8);
    assert s0.bits == b;
    assert TopDigit(s0) == b && BitsBelow(s0) == 0;
    EmitLoopUnfold(s0, b);
    BreakIfDueFields(st, s0, b);
    assert EmitStep(s0, b).nBits == 0;
  }

  /**
   * The top digit and the bits left below it, once a byte b has joined the
   * x pending bits of a base64 region: 's0' is the state TakeByteState
   * speaks of, with 8, 10 or 12 bits pending.
   */
  lemma Base64Pending(s0: OutState, x: nat, b: byte)
    requires LoopState(s0) && s0.byteSize == 6 && s0.bits == x * 256 + b
    requires s0.nBits == 8 || s0.nBits == 10 || s0.nBits == 12
    requires x < Pow2(s0.nBits - 8)
    ensures s0.nBits == 8 ==> TopDigit(s0) == b / 4 && BitsBelow(s0) == b % 4
    ensures s0.nBits == 10 ==> TopDigit(s0) == x * 16 + b / 16 && BitsBelow(s0) == b % 16
    ensures s0.nBits == 12 ==> TopDigit(s0) == x * 4 + b / 64 && BitsBelow(s0) == b % 64
  {
    Pow2Values();
    if s0.nBits == 8 {
      assert TopDigit(s0) == s0.bits / 4 % 64;
      SplitByte4(x, b);
    } else if s0.nBits == 10 {
      assert TopDigit(s0) == s0.bits / 16 % 64;
      SplitByte16(x, b);
    } else {
      assert TopDigit(s0) == s0.bits / 64 % 64;
      SplitByte64(x, b);
    }
  }

  /** A base64 digit loop holding 8 or 10 bits writes its top digit and leaves the bits below it pending. */
  lemma Base64OneDigit(s0: OutState, c: byte, n: nat, top: nat, low: nat)
    requires LoopState(s0) && s0.byteSize == 6 && s0.nBits == n + 6 && n < 6
    requires top < 64 && TopDigit(s0) == top && BitsBelow(s0) == low
    ensures var r := EmitLoop(s0, c);
      && r.nBits == n && r.bits == low
      && Visible(r.out) == Visible(s0.out) + [Base64Digit(top)]
  {
    EmitLoopUnfold(s0, c);
    EmitStepShape(s0, c);
  }

  /**
   * In a base64 region the bytes of each group of three go out as four
   * digits of six bits, high bits first. The first byte of a group gives one
   * digit and leaves its low two bits pending.
   */
  lemma Base64FirstByte(st: OutState, c: byte)
    requires ValidOut(st) && st.byteSize == 6 && st.nBits == 0
    ensures var r := VarPutCharF(st, c);
      && r.nBits == 2 && r.bits == c % 4
      && Visible(r.out) == Visible(st.out) + [Base64Digit(c / 4)]
  {
    VarPutByteUnfold(st, c);
    var s0 := st.(bits := st.bits * 256 + c, nBits := st.nBits + 8);
    Base64Pending(s0, st.bits, c);
    Base64OneDigit(s0, c, 2, c / 4, c % 4);
  }

  /** The second byte of a group completes the second digit and leaves its low four bits pending. */
  lemma Base64SecondByte(st: OutState, c: byte)
    requires ValidOut(st) && st.byteSize == 6 && st.nBits == 2
    ensures var r := VarPutCharF(st, c);
      && r.nBits == 4 && r.bits == c % 16
      && Visible(r.out) == Visible(st.out) + [Base64Digit(st.bits * 16 + c / 16)]
  {
    VarPutByteUnfold(st, c);
    var s0 := st.(bits := st.bits * 256 + c, nBits := st.nBits + 8);
    Base64Pending(s0, st.bits, c);
    Base64OneDigit(s0, c, 4, st.bits * 16 + c / 16, c % 16);
  }

  /** The third byte of a group completes the third digit and gives the fourth; nothing stays pending. */
  lemma Base64ThirdByte(st: OutState, c: byte)
    requires ValidOut(st) && st.byteSize == 6 && st.nBits == 4
    ensures var r := VarPutCharF(st, c);
      var ds := [Base64Digit(st.bits * 4 + c / 64), Base64Digit(c % 64)];
      && r.nBits == 0 && r.bits == 0
      && Visible(r.out) == Visible(st.out) + ds
  {
    VarPutByteUnfold(st, c);
    var s0 := st.(bits := st.bits * 256 + c, nBits := st.nBits + 8);
    Base64Pending(s0, st.bits, c);
    Base64TwoDigits(s0, c, st.bits * 4 + c / 64, c % 64);
  }

  /** A base64 digit loop holding 12 bits writes both of its digits and leaves nothing pending. */
  lemma Base64TwoDigits(s0: OutState, c: byte, top: nat, low: nat)
    requires LoopState(s0) && s0.byteSize == 6 && s0.nBits == 12
    requires top < 64 && low < 64 && TopDigit(s0) == top && BitsBelow(s0) == low
    ensures var r := EmitLoop(s0, c);
      && r.nBits == 0 && r.bits == 0
      && Visible(r.out) == Visible(s0.out) + [Base64Digit(top), Base64Digit(low)]
  {
    TwoDigits(s0, c);
  }

  /** n padding characters. */
  function Pads(n: nat): seq<byte> {
    if n == 0 then [] else [PadChar] + Pads(n - 1)
  }

  lemma PadsCons(a: seq<byte>, n: nat, n1: nat)
    requires n1 == n - 1
    ensures a + [PadChar] + Pads(n1) == a + Pads(n)
  {
  }

  lemma PadStepShape(st: OutState)
    requires Channel(st) && st.nBits == 0 && st.base64Count % 4 != 0
    ensures var r := PadStep(st);
      && PadLoop(st) == PadLoop(r)
      && Channel(r) && r.nBits == 0 && (Quiet(r) <==> Quiet(st))
      && r.base64Count == st.base64Count + 1
      && Visible(r.out) == Visible(st.out) + [PadChar]
      && (Quiet(st) ==> r.out == st.out + [PadChar])
  {
    PadBreakInvisible(st);
    VisibleAppendShown(PadBreak(st).out, PadChar);
  }

  /** The line break of the padding loop shows nothing, and a quiet stream never writes one. */
  lemma PadBreakInvisible(st: OutState)
    ensures Visible(PadBreak(st).out) == Visible(st.out)
    ensures Quiet(st) ==> PadBreak(st).out == st.out
  {
    NewLineInvisible(st, st.mode);
    NewLineShape(st, st.mode);
  }

  /** The padding loop completes the group with the n '=' it lacks, which show. */
  lemma {:induction false} PadLoopShape(st: OutState, n: nat)
    requires Channel(st) && st.nBits == 0 && n == (4 - st.base64Count % 4) % 4
    ensures Visible(PadLoop(st).out) == Visible(st.out) + Pads(n)
    decreases n
  {
    if st.base64Count % 4 != 0 {
      var st2 := PadStep(st);
      PadStepShape(st);
      GroupCountdown(st.base64Count);
      var n1: nat := n - 1;
      PadLoopShape(st2, n1);
      PadsCons(Visible(st.out), n, n1);
    } else {
      assert n == 0 && PadLoop(st) == st;
      assert Visible(st.out) + Pads(0) == Visible(st.out);
    }
  }

  /** On a quiet stream the padding is all the loop writes. */
  lemma {:induction false} PadLoopQuiet(st: OutState, n: nat)
    requires Channel(st) && st.nBits == 0 && Quiet(st) && n == (4 - st.base64Count % 4) % 4
    ensures PadLoop(st).out == st.out + Pads(n)
    decreases n
  {
    if st.base64Count % 4 != 0 {
      var st2 := PadStep(st);
      PadStepShape(st);
      GroupCountdown(st.base64Count);
      var n1: nat := n - 1;
      PadLoopQuiet(st2, n1);
      PadsCons(st.out, n, n1);
    } else {
      assert n == 0 && PadLoop(st) == st;
      assert st.out + Pads(0) == st.out;
    }
  }

  /** The partial digit of flushOutput shows, and leaves the group two or one digits short. */
  lemma FlushDigitShape(st: OutState)
    requires ValidOut(st) && st.nBits > 0
    ensures var r := FlushDigit(st); var d := Base64Digit(PaddedDigit(st));
      && r.out == st.out + [d] && Visible(r.out) == Visible(st.out) + [d]
      && (Quiet(r) <==> Quiet(st))
      && (st.nBits == 2 ==> (4 - r.base64Count % 4) % 4 == 2)
      && (st.nBits == 4 ==> (4 - r.base64Count % 4) % 4 == 1)
  {
    VisibleAppendShown(st.out, Base64Digit(PaddedDigit(st)));
  }

  /**
   * flushOutput: nothing is left pending, and at widths 4 and 8 there is
   * nothing to flush.
   */
  lemma FlushShape(st: OutState)
    requires ValidOut(st)
    ensures FlushF(st).nBits == 0
    ensures st.byteSize == 6 ==> FlushF(st).base64Count % 4 == 0
    ensures st.byteSize != 6 ==> FlushF(st) == st
  {
  }

  /**
   * What flushOutput shows at width 6: a partial group gets its last digit,
   * padded with zero bits, and then '=' until the region holds a multiple of
   * four digits: "==" after one byte of a group, "=" after two.
   */
  function FlushTail(st: OutState): seq<byte>
    requires ValidOut(st) && st.byteSize == 6
  {
    if st.nBits == 0 then []
    else if st.nBits == 2 then [Base64Digit(st.bits * 16), PadChar, PadChar]
    else [Base64Digit(st.bits * 4), PadChar]
  }

  /** The tail is the partial digit and the '=' that complete its group. */
  lemma FlushTailPads(st: OutState, n: nat)
    requires ValidOut(st) && st.byteSize == 6 && st.nBits > 0
    requires n == (4 - FlushDigit(st).base64Count % 4) % 4
    ensures [Base64Digit(PaddedDigit(st))] + Pads(n) == FlushTail(st)
  {
    GroupCountdown(st.base64Count);
    if st.nBits == 2 {
      assert Pads(2) == [PadChar, PadChar];
    } else {
      assert Pads(1) == [PadChar];
    }
  }

  /** Two appends in a row are one append of both. */
  lemma AppendAssoc(x: seq<byte>, y: seq<byte>, z: seq<byte>, p: seq<byte>, q: seq<byte>)
    requires y == x + p && z == y + q
    ensures z == x + (p + q)
  {
  }

  lemma FlushVisible(st: OutState)
    requires ValidOut(st) && st.byteSize == 6
    ensures Visible(FlushF(st).out) == Visible(st.out) + FlushTail(st)
  {
    if st.nBits == 0 {
      PadLoopShape(st, 0);
      assert Visible(st.out) + Pads(0) == Visible(st.out);
    } else {
      FlushVisiblePartial(st);
    }
  }

  lemma FlushVisiblePartial(st: OutState)
    requires ValidOut(st) && st.byteSize == 6 && st.nBits > 0
    ensures Visible(FlushF(st).out) == Visible(st.out) + FlushTail(st)
  {
    var st1 := FlushDigit(st);
    var d := Base64Digit(PaddedDigit(st));
    var n := (4 - st1.base64Count % 4) % 4;
    FlushDigitShape(st);
    PadLoopShape(st1, n);
    assert FlushF(st) == PadLoop(st1);
    FlushTailPads(st, n);
    AppendAssoc(Visible(st.out), Visible(st1.out), Visible(PadLoop(st1).out), [d], Pads(n));
  }

  lemma FlushQuiet(st: OutState)
    requires ValidOut(st) && st.byteSize == 6 && Quiet(st)
    ensures FlushF(st).out == st.out + FlushTail(st)
  {
    if st.nBits == 0 {
      PadLoopQuiet(st, 0);
      assert st.out + Pads(0) == st.out;
    } else {
      FlushQuietPartial(st);
    }
  }

  lemma FlushQuietPartial(st: OutState)
    requires ValidOut(st) && st.byteSize == 6 && st.nBits > 0 && Quiet(st)
    ensures FlushF(st).out == st.out + FlushTail(st)
  {
    var st1 := FlushDigit(st);
    var d := Base64Digit(PaddedDigit(st));
    var n := (4 - st1.base64Count % 4) % 4;
    FlushDigitShape(st);
    PadLoopQuiet(st1, n);
    assert FlushF(st) == PadLoop(st1);
    FlushTailPads(st, n);
    AppendAssoc(st.out, st1.out, PadLoop(st1).out, [d], Pads(n));
  }
}
