/**
 * The output stream of sexp-output.c and its bit channel: putChar, newLine,
 * varPutChar, changeOutputByteSize and flushOutput.
 *
 * The stream appends to a byte sequence `out` instead of writing to a FILE.
 * The pure state OutState and the functions below say what each routine
 * does; the class OutputStream holds the same fields and its methods are
 * proved to do exactly that.
 */
module SexpOutput {
  import opened SexpTypes
  import opened SexpChars
  import opened SexpBits

  /** DEFAULTLINELENGTH of sexp.h: the initial maximum column. */
  const DefaultLineLength: int := 75

  /**
   * The fields of sexpOutputStream and everything written so far. As on the
   * input side, `bits` holds only its meaningful low `nBits` bits.
   */
  datatype OutState = OutState(
    out: seq<byte>,
    column: int,
    maxcolumn: int,
    indent: int,
    byteSize: int,
    bits: nat,
    nBits: nat,
    base64Count: int,
    mode: Mode)

  /**
   * The invariant of the channel between calls: a legal width; pending bits
   * only at width 6, fewer than one digit needs and all meaningful; a digit
   * count that is not negative.
   */
  ghost predicate Channel(st: OutState) {
    && (st.byteSize == 4 || st.byteSize == 6 || st.byteSize == 8)
    && st.nBits < st.byteSize
    && (st.byteSize != 6 ==> st.nBits == 0)
    && st.bits < Pow2(st.nBits)
    && st.base64Count >= 0
  }

  /**
   * The states varPutChar and flushOutput leave: at width 6 the digits
   * written since the region began and the pending bits add up to whole
   * bytes, so each digit written into the current group of four leaves two
   * more bits pending (which is what tells flushOutput how many '=' to add).
   */
  ghost predicate ValidOut(st: OutState) {
    && Channel(st)
    && (st.byteSize == 6 ==> st.nBits == 2 * (st.base64Count % 4))
  }

  /**
   * newSexpOutputStream: column 0, maximum column 75, no indentation, width 8,
   * canonical mode. The C code leaves base64Count unset; it is 0 here, and
   * every path into a restricted width sets it before use.
   */
  function NewOutState(): (st: OutState)
    ensures ValidOut(st) && st.out == []
  {
    OutState([], 0, DefaultLineLength, 0, 8, 0, 0, 0, Canonical)
  }

  /** putChar: writes the byte and moves one column on; nothing else changes. */
  function PutCharF(st: OutState, c: int): (r: OutState)
    ensures r == st.(out := r.out, column := r.column)
    ensures r.out == st.out + [LowByte(c)] && r.column == st.column + 1
  {
    st.(out := st.out + [LowByte(c)], column := st.column + 1)
  }

  /** The number of blanks newLine indents by in advanced mode: one per level, at most a quarter of maxcolumn (rounded up). */
  function IndentWidth(indent: int, maxcolumn: int): nat {
    if indent <= 0 || maxcolumn <= 0 then 0
    else if indent < (maxcolumn + 3) / 4 then indent
    else (maxcolumn + 3) / 4
  }

  /** n blanks. */
  function Blanks(n: nat): seq<byte> {
    seq(n, _ => Blank)
  }

  /** newLine: a line feed that resets the column (advanced and base64 modes), then the indentation (advanced mode). */
  function NewLineF(st: OutState, mode: Mode): (r: OutState)
    ensures r == st.(out := r.out, column := r.column)
  {
    var st1 := if mode == Advanced || mode == Base64 then PutCharF(st, '\n' as int).(column := 0) else st;
    if mode == Advanced then IndentLoop(st1, 0) else st1
  }

  /** The indentation loop of newLine, from blank number i on. */
  function IndentLoop(st: OutState, i: nat): (r: OutState)
    ensures r == st.(out := r.out, column := r.column)
    decreases st.indent - i
  {
    if i < st.indent && 4 * i < st.maxcolumn then IndentLoop(PutCharF(st, ' ' as int), i + 1)
    else st
  }

  /**
   * The digit character varPutChar and flushOutput write for a group of
   * `size` bits with value d: hexDigits[d], base64Digits[d] (which
   * HexDigitsTable and Base64DigitsTable show to be HexDigit(d) and
   * Base64Digit(d)), or the byte itself.
   */
  function DigitChar(size: int, d: nat): (r: byte)
    requires (size == 4 && d < 16) || (size == 6 && d < 64) || (size == 8 && d < 256)
  {
    if size == 4 then HexDigit(d) else if size == 6 then Base64Digit(d) else d
  }

  /**
   * The test varPutChar makes before each digit: a line break is due when the
   * width is restricted, or the byte is a brace, '#' or '|', and the column
   * has reached a positive maximum.
   */
  predicate BreakDue(st: OutState, c: int) {
    && (st.byteSize == 6 || st.byteSize == 4
        || c == '}' as int || c == '{' as int || c == '#' as int || c == '|' as int)
    && st.maxcolumn > 0 && st.column >= st.maxcolumn
  }

  /** The states of the digit loop of varPutChar: at most one byte's worth of pending bits beyond a digit. */
  ghost predicate LoopState(st: OutState) {
    && (st.byteSize == 4 || st.byteSize == 6 || st.byteSize == 8)
    && st.nBits < st.byteSize + 8
    && (st.byteSize == 8 ==> st.nBits == 0 || st.nBits == 8)
    && (st.byteSize == 4 ==> st.nBits % 4 == 0)
    && st.bits < Pow2(st.nBits)
    && st.base64Count >= 0
    && (st.byteSize == 6 ==> st.nBits % 8 == 2 * (st.base64Count % 4))
  }

  /** The top `byteSize` of the pending bits (`(bits >> (nBits - size)) & mask`, or `bits & 0xFF` at width 8). */
  function TopDigit(st: OutState): (d: nat)
    requires LoopState(st) && st.nBits >= st.byteSize
    ensures (st.byteSize == 4 && d < 16) || (st.byteSize == 6 && d < 64) || (st.byteSize == 8 && d < 256)
  {
    Pow2Values();
    if st.byteSize == 8 then st.bits % 256
    else st.bits / Pow2(st.nBits - st.byteSize) % Pow2(st.byteSize)
  }

  /** The pending bits below the top digit. */
  function BitsBelow(st: OutState): (b: nat)
    requires LoopState(st) && st.nBits >= st.byteSize
    ensures b < Pow2(st.nBits - st.byteSize)
  {
    st.bits % Pow2(st.nBits - st.byteSize)
  }

  /** The line break varPutChar writes before a digit when one is due. */
  function BreakIfDue(st: OutState, c: int): (r: OutState)
    ensures r == st.(out := r.out, column := r.column)
  {
    if BreakDue(st, c) then NewLineF(st, st.mode) else st
  }

  /** One pass of the digit loop of varPutChar: a due line break, the top digit, and the digit counted. */
  function EmitStep(st: OutState, c: byte): (r: OutState)
    requires LoopState(st) && st.nBits >= st.byteSize
    ensures LoopState(r) && r.nBits == st.nBits - st.byteSize && r.base64Count == st.base64Count + 1
    ensures r.maxcolumn == st.maxcolumn && r.indent == st.indent && r.byteSize == st.byteSize && r.mode == st.mode
  {
    AlignStep(st.nBits, st.base64Count);
    var st1 := PutCharF(BreakIfDue(st, c), DigitChar(st.byteSize, TopDigit(st)));
    st1.(bits := BitsBelow(st), nBits := st.nBits - st.byteSize, base64Count := st.base64Count + 1)
  }

  /** The digit loop of varPutChar: passes while a whole digit is pending. */
  function EmitLoop(st: OutState, c: byte): (r: OutState)
    requires LoopState(st)
    ensures ValidOut(r)
    ensures r.maxcolumn == st.maxcolumn && r.indent == st.indent && r.byteSize == st.byteSize && r.mode == st.mode
    decreases st.nBits
  {
    if st.nBits >= st.byteSize then EmitLoop(EmitStep(st, c), c) else st
  }

  /** A byte joining the pending bits (below them) leaves a state of the digit loop. */
  lemma TakeByteState(st: OutState, b: byte)
    requires ValidOut(st)
    ensures LoopState(st.(bits := st.bits * 256 + b, nBits := st.nBits + 8))
  {
    Pow2Values();
    ShiftIn(st.bits, st.nBits, b, 8);
  }

  /** varPutChar is its digit loop, run once the byte has joined the pending bits. */
  lemma VarPutCharSplit(st: OutState, c: int, b: byte, st1: OutState)
    requires ValidOut(st) && b == LowByte(c) && st1 == st.(bits := st.bits * 256 + b, nBits := st.nBits + 8)
    ensures LoopState(st1) && VarPutCharF(st, c) == EmitLoop(st1, b)
  {
    TakeByteState(st, b);
  }

  /** varPutChar: the low byte of c joins the pending bits, and every whole digit among them is written. */
  function VarPutCharF(st: OutState, c: int): (r: OutState)
    requires ValidOut(st)
    ensures ValidOut(r)
    ensures r.maxcolumn == st.maxcolumn && r.indent == st.indent && r.byteSize == st.byteSize && r.mode == st.mode
  {
    var b := LowByte(c);
    TakeByteState(st, b);
    EmitLoop(st.(bits := st.bits * 256 + b, nBits := st.nBits + 8), b)
  }

  /**
   * changeOutputByteSize: fatal for a width other than 4, 6 or 8 and for a
   * switch between two restricted widths; otherwise the new width with
   * nothing pending, the digit count cleared and the mode recorded.
   */
  function ChangeOutputByteSizeF(st: OutState, newByteSize: int, mode: Mode): (r: Result<OutState>)
    ensures r.Ok? <==> (newByteSize == 4 || newByteSize == 6 || newByteSize == 8) && (newByteSize == 8 || st.byteSize == 8)
    ensures r.Ok? ==> ValidOut(r.value) && r.value.out == st.out && r.value.column == st.column
  {
    if newByteSize != 4 && newByteSize != 6 && newByteSize != 8 then Err(IllegalOutputBase(newByteSize))
    else if newByteSize != 8 && st.byteSize != 8 then Err(IllegalByteSizeChange(st.byteSize, newByteSize))
    else Ok(st.(byteSize := newByteSize, nBits := 0, bits := 0, base64Count := 0, mode := mode))
  }

  /**
   * What changeOutputByteSize does, field by field: which error a refused
   * width gives, and that an accepted one is recorded with the mode while
   * the pending bits and the digit count are cleared and the line is kept.
   */
  lemma ChangeOutputByteSizeFields(st: OutState, newByteSize: int, mode: Mode)
    ensures newByteSize != 4 && newByteSize != 6 && newByteSize != 8 ==>
      ChangeOutputByteSizeF(st, newByteSize, mode) == Err(IllegalOutputBase(newByteSize))
    ensures (newByteSize == 4 || newByteSize == 6) && st.byteSize != 8 ==>
      ChangeOutputByteSizeF(st, newByteSize, mode) == Err(IllegalByteSizeChange(st.byteSize, newByteSize))
    ensures ChangeOutputByteSizeF(st, newByteSize, mode).Ok? ==>
      var r := ChangeOutputByteSizeF(st, newByteSize, mode).value;
      && r.byteSize == newByteSize && r.mode == mode && r.bits == 0 && r.nBits == 0 && r.base64Count == 0
      && r.out == st.out && r.column == st.column && r.maxcolumn == st.maxcolumn && r.indent == st.indent
  {
  }

  /**
   * The last, partial digit flushOutput writes: the pending bits padded with
   * zero bits below them. Bits are pending only at width 6, two of them
   * after the first byte of a group and four after the second.
   */
  function PaddedDigit(st: OutState): (d: nat)
    requires ValidOut(st) && st.nBits > 0
    ensures st.byteSize == 6 && d < 64
    ensures st.nBits == 2 ==> d == st.bits * 16
    ensures st.nBits == 4 ==> d == st.bits * 4
  {
    Pow2Values();
    MulBelow(st.bits, 4, 16);
    MulBelow(st.bits, 16, 4);
    st.bits * Pow2(st.byteSize - st.nBits) % Pow2(st.byteSize)
  }

  /** The first step of flushOutput: the partial digit, counted, and nothing left pending. */
  function FlushDigit(st: OutState): (r: OutState)
    requires ValidOut(st) && st.nBits > 0
    ensures Channel(r) && r.nBits == 0 && r.base64Count == st.base64Count + 1
    ensures r == st.(out := r.out, column := r.column, bits := 0, nBits := 0, base64Count := r.base64Count)
  {
    PutCharF(st, DigitChar(st.byteSize, PaddedDigit(st))).(nBits := 0, bits := 0, base64Count := st.base64Count + 1)
  }

  /** flushOutput: writes a partial digit, then at width 6 pads with '=' to a multiple of four digits. */
  function FlushF(st: OutState): (r: OutState)
    requires ValidOut(st)
    ensures ValidOut(r)
    ensures r.maxcolumn == st.maxcolumn && r.indent == st.indent && r.byteSize == st.byteSize && r.mode == st.mode
  {
    var st1 := if st.nBits > 0 then FlushDigit(st) else st;
    if st1.byteSize == 6 then PadLoop(st1) else st1
  }

  /** The padding loop of flushOutput, breaking the line when the column has reached a positive maximum. */
  function PadLoop(st: OutState): (r: OutState)
    requires Channel(st) && st.nBits == 0
    ensures ValidOut(r) && r.base64Count % 4 == 0
    ensures r.byteSize == st.byteSize && r.nBits == st.nBits && r.maxcolumn == st.maxcolumn && r.mode == st.mode
    ensures r.indent == st.indent
    decreases (4 - st.base64Count % 4) % 4
  {
    if st.base64Count % 4 != 0 then
      GroupCountdown(st.base64Count);
      PadLoop(PadStep(st))
    else st
  }

  /** The line break of the padding loop, due when the column has reached a positive maximum. */
  function PadBreak(st: OutState): (r: OutState)
    ensures r == st.(out := r.out, column := r.column)
  {
    if st.maxcolumn > 0 && st.column >= st.maxcolumn then NewLineF(st, st.mode) else st
  }

  /** One pass of the padding loop: a due line break, then '=' counted as a digit. */
  function PadStep(st: OutState): (r: OutState)
    ensures r == st.(out := r.out, column := r.column, base64Count := st.base64Count + 1)
    ensures r.base64Count == st.base64Count + 1 && r.out == PadBreak(st).out + [PadChar]
  {
    PutCharF(PadBreak(st), PadChar).(base64Count := st.base64Count + 1)
  }

  /** varPutChar applied to each byte of `data` in turn (the loops of the printers). */
  function PutBytesF(st: OutState, data: seq<byte>): (r: OutState)
    requires ValidOut(st)
    ensures ValidOut(r)
    ensures r.maxcolumn == st.maxcolumn && r.indent == st.indent && r.byteSize == st.byteSize && r.mode == st.mode
    decreases |data|
  {
    if |data| == 0 then st else PutBytesF(VarPutCharF(st, data[0]), data[1..])
  }

  /**
   * The output stream (sexpOutputStream). The FILE is replaced by the byte
   * sequence `out` that everything written is appended to; err becomes a
   * returned failure.
   */
  class OutputStream {
    var out: seq<byte>
    var column: int
    var maxcolumn: int
    var indent: int
    var byteSize: int
    var bits: nat
    var nBits: nat
    var base64Count: int
    var mode: Mode

    function State(): OutState
      reads this
    {
      OutState(out, column, maxcolumn, indent, byteSize, bits, nBits, base64Count, mode)
    }

    ghost predicate Valid()
      reads this
    {
      ValidOut(State())
    }

    /** newSexpOutputStream */
    constructor ()
      ensures Valid() && State() == NewOutState()
    {
      out := [];
      column := 0;
      maxcolumn := DefaultLineLength;
      indent := 0;
      byteSize := 8;
      bits := 0;
      nBits := 0;
      base64Count := 0;
      mode := Canonical;
    }

    /** putChar */
    method PutChar(c: int)
      modifies this
      ensures State() == PutCharF(old(State()), c)
    {
      out := out + [LowByte(c)];
      column := column + 1;
    }

    /** newLine */
    method NewLine(m: Mode)
      modifies this
      ensures State() == NewLineF(old(State()), m)
    {
      if m == Advanced || m == Base64 {
        PutChar('\n' as int);
        column := 0;
      }
      if m == Advanced {
        ghost var st1 := State();
        var i: nat := 0;
        while i < indent && 4 * i < maxcolumn
          invariant IndentLoop(State(), i) == IndentLoop(st1, 0)
          decreases indent - i
        {
          PutChar(' ' as int);
          i := i + 1;
        }
      }
    }

    /** varPutChar */
    method VarPutChar(c: int)
      requires Valid()
      modifies this
      ensures Valid() && State() == VarPutCharF(old(State()), c)
    {
      ghost var st0 := State();
      var b := LowByte(c);
      TakeByte(b);
      VarPutCharSplit(st0, c, b, State());
      EmitDigits(b);
    }

    /** The digit loop of varPutChar: writes every whole digit among the pending bits. */
    method EmitDigits(b: byte)
      requires LoopState(State())
      modifies this
      ensures State() == EmitLoop(old(State()), b)
    {
      ghost var st1 := State();
      while nBits >= byteSize
        invariant LoopState(State()) && EmitLoop(State(), b) == EmitLoop(st1, b)
        decreases nBits
      {
        EmitDigit(b);
      }
    }

    /** The first step of varPutChar: the byte joins the pending bits below them. */
    method TakeByte(b: byte)
      requires Valid()
      modifies this
      ensures LoopState(State())
      ensures State() == old(State()).(bits := old(bits) * 256 + b, nBits := old(nBits) + 8)
    {
      TakeByteState(State(), b);
      bits := bits * 256 + b;
      nBits := nBits + 8;
    }

    /** One pass of the digit loop of varPutChar. */
    method EmitDigit(b: byte)
      requires LoopState(State()) && nBits >= byteSize
      modifies this
      ensures State() == EmitStep(old(State()), b)
    {
      var st := State();
      var d := TopDigit(st);
      var low := BitsBelow(st);
      if BreakDue(st, b) {
        NewLine(mode);
      }
      PutChar(DigitChar(byteSize, d));
      bits := low;
      nBits := nBits - byteSize;
      base64Count := base64Count + 1;
    }

    /** changeOutputByteSize */
    method ChangeOutputByteSize(newByteSize: int, m: Mode) returns (r: Outcome)
      modifies this
      ensures var f := ChangeOutputByteSizeF(old(State()), newByteSize, m);
        && (r.Fail? <==> f.Err?)
        && (f.Err? ==> r.error == f.error && State() == old(State()))
        && (f.Ok? ==> State() == f.value)
    {
      if newByteSize != 4 && newByteSize != 6 && newByteSize != 8 {
        return Fail(IllegalOutputBase(newByteSize));
      }
      if newByteSize != 8 && byteSize != 8 {
        return Fail(IllegalByteSizeChange(byteSize, newByteSize));
      }
      byteSize := newByteSize;
      nBits := 0;
      bits := 0;
      base64Count := 0;
      mode := m;
      return Pass;
    }

    /** flushOutput */
    method FlushOutput()
      requires Valid()
      modifies this
      ensures Valid() && State() == FlushF(old(State()))
    {
      if nBits > 0 {
        PutChar(DigitChar(byteSize, PaddedDigit(State())));
        nBits := 0;
        bits := 0;
        base64Count := base64Count + 1;
      }
      if byteSize == 6 {
        Pad();
      }
    }

    /** The padding loop of flushOutput. */
    method Pad()
      requires Channel(State()) && nBits == 0
      modifies this
      ensures Valid() && State() == PadLoop(old(State()))
    {
      ghost var st1 := State();
      while base64Count % 4 != 0
        invariant Channel(State()) && nBits == 0 && PadLoop(State()) == PadLoop(st1)
        decreases (4 - base64Count % 4) % 4
      {
        ghost var prev := State();
        if maxcolumn > 0 && column >= maxcolumn {
          NewLine(mode);
        }
        PutChar(PadChar);
        base64Count := base64Count + 1;
        assert State() == PadStep(prev);
        GroupCountdown(prev.base64Count);
      }
    }

    /** varPutChar on each byte of `data`, as the printers' loops do. */
    method PutBytes(data: seq<byte>)
      requires Valid()
      modifies this
      ensures Valid() && State() == PutBytesF(old(State()), data)
    {
      var i := 0;
      while i < |data|
        invariant 0 <= i <= |data| && Valid()
        invariant PutBytesF(State(), data[i..]) == PutBytesF(old(State()), data)
      {
        assert data[i..][1..] == data[i + 1..];
        VarPutChar(data[i]);
        i := i + 1;
      }
    }
  }
}
