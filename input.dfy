/**
 * The input stream of sexp-input.c and its bit channel: getChar delivers
 * one 8-bit character at a time, decoding hex (4-bit) and base64 (6-bit)
 * regions on the fly.
 *
 * The stream reads from a byte sequence `src` at position `pos` instead of
 * a FILE; reaching the end of `src` is the C library's EOF. The pure state
 * InState and the function GetCharF say what one call of getChar does; the
 * class InputStream holds the same fields and its method GetChar is proved
 * to do exactly that.
 */
module SexpInput {
  import opened SexpTypes
  import opened SexpChars
  import opened SexpBits

  /**
   * The fields of sexpInputStream plus the unread input and the warnings
   * issued so far. `bits` holds only its meaningful low `nBits` bits: the C
   * int keeps the older bits above them, but every use masks them away.
   */
  datatype InState = InState(
    src: seq<byte>,
    pos: nat,
    nextChar: int,
    byteSize: int,
    bits: nat,
    nBits: nat,
    count: int,
    warnings: seq<Warning>)

  /** The states getChar can be in: fewer than 8 pending bits, and EOF only once the input is exhausted. */
  ghost predicate ValidIn(st: InState) {
    && st.pos <= |st.src|
    && (st.byteSize == 4 || st.byteSize == 6 || st.byteSize == 8)
    && st.nBits < 8
    && st.bits < Pow2(st.nBits)
    && -1 <= st.nextChar < 256
    && (st.nextChar == EOF ==> st.pos == |st.src|)
  }

  /** newSexpInputStream: a blank is pretended to precede the input; count starts at -1 so that it counts from 0. */
  function NewInState(src: seq<byte>): (st: InState)
    ensures ValidIn(st)
  {
    Pow2Values();
    InState(src, 0, ' ' as int, 8, 0, 0, -1, [])
  }

  /** changeInputByteSize: a new region width, with no pending bits. */
  function ChangeInputByteSizeF(st: InState, newByteSize: int): InState {
    st.(byteSize := newByteSize, nBits := 0, bits := 0)
  }

  /** A strictly decreasing measure of the input left: every getChar that does not start at EOF lowers it. */
  function Measure(st: InState): nat
    requires st.pos <= |st.src|
  {
    2 * (|st.src| - st.pos) + (if st.nextChar == EOF then 0 else 1)
  }

  /** The character that closes the current coding region, if the width is restricted. */
  predicate IsTerminator(byteSize: int, c: int) {
    (byteSize == 6 && (c == '|' as int || c == '}' as int)) || (byteSize == 4 && c == '#' as int)
  }

  /** The value of a digit of the current restricted region, if it is one. */
  function RegionDigit(byteSize: int, c: int): (r: Option<nat>)
    ensures r.Some? ==> (byteSize == 4 || byteSize == 6) && r.value < Pow2(byteSize)
  {
    Pow2Values();
    if byteSize == 6 && IsBase64Digit(c) then Some(Base64Value(c))
    else if byteSize == 4 && IsHexDigit(c) then Some(HexValue(c))
    else None
  }

  /** The leftover-bits warning a terminator gives: only for nonzero leftover bits. */
  function LeftoverWarning(st: InState): seq<Warning> {
    if st.nBits > 0 && st.bits % Pow2(st.nBits) != 0 then [UnusedBits(st.byteSize, st.nBits)] else []
  }

  /** getChar: the next 8-bit character, or the unchanged EOF, which also ends any region. */
  function GetCharF(st: InState): (r: Result<InState>)
    requires ValidIn(st)
    ensures r.Ok? ==> ValidIn(r.value) && r.value.src == st.src && r.value.pos >= st.pos
    ensures r.Ok? && st.nextChar != EOF ==> Measure(r.value) < Measure(st)
  {
    if st.nextChar == EOF then Ok(st.(byteSize := 8))
    else GetCharLoop(st)
  }

  /** One pass of the read loop of getChar: it returns, or it goes on reading. */
  datatype Step = Stop(r: Result<InState>) | More(st: InState)

  /** One pass of the read loop, on the input byte at `pos`; it does not look at nextChar. */
  function GetCharStep(st: InState): (s: Step)
    requires ValidIn(st) && st.pos < |st.src|
    ensures s.More? ==> ValidIn(s.st) && s.st.src == st.src && s.st.pos == st.pos + 1
    ensures s.Stop? && s.r.Ok? ==> ValidIn(s.r.value) && s.r.value.src == st.src && s.r.value.pos == st.pos + 1
  {
    var c := st.src[st.pos] as int;
    var st1 := st.(pos := st.pos + 1, nextChar := c);
    if IsTerminator(st.byteSize, c) then
      Pow2Values();
      Stop(Ok(st1.(byteSize := 8, nBits := 0, bits := 0, warnings := st.warnings + LeftoverWarning(st))))
    else if st.byteSize != 8 && IsWhiteSpace(c) then More(st1)
    else if st.byteSize == 6 && c == '=' as int then More(st1)
    else if st.byteSize == 8 then Stop(Ok(st1.(count := st.count + 1)))
    else
      match RegionDigit(st.byteSize, c)
      case None => Stop(Err(BadRegionChar(c, st.byteSize)))
      case Some(v) => TakeDigitF(st1, v)
  }

  /**
   * A digit of value v of the current region joins the pending bits; once
   * there are 8 of them, their top byte is the character delivered.
   */
  function TakeDigitF(st: InState, v: nat): (s: Step)
    requires ValidIn(st) && st.nextChar != EOF && (st.byteSize == 4 || st.byteSize == 6) && v < Pow2(st.byteSize)
    ensures s.Stop? ==> s.r.Ok? && ValidIn(s.r.value) && s.r.value.src == st.src && s.r.value.pos == st.pos
    ensures s.More? ==> ValidIn(s.st) && s.st.src == st.src && s.st.pos == st.pos
  {
    var b := ShiftDigit(st.bits, st.byteSize, v);
    var n := st.nBits + st.byteSize;
    ShiftIn(st.bits, st.nBits, v, st.byteSize);
    assert b < Pow2(st.nBits + st.byteSize);
    if n >= 8 then
      ByteFromTop(b, n);
      Stop(Ok(st.(nextChar := TopByteOf(b, n), bits := LowBitsOf(b, n), nBits := n - 8, count := st.count + 1)))
    else More(st.(bits := b, nBits := n))
  }

  /** The read loop of getChar: EOF at the end of the input, else passes until one returns. */
  function GetCharLoop(st: InState): (r: Result<InState>)
    requires ValidIn(st)
    ensures r.Ok? ==> ValidIn(r.value) && r.value.src == st.src && r.value.pos >= st.pos
    ensures r.Ok? ==> Measure(r.value) < 2 * (|st.src| - st.pos) + 1
    decreases |st.src| - st.pos
  {
    if st.pos == |st.src| then Ok(st.(nextChar := EOF))
    else
      match GetCharStep(st)
      case Stop(r) => r
      case More(st') => GetCharLoop(st')
  }

  /** The pending bits with one more digit of `size` bits shifted in below them. */
  function ShiftDigit(bits: nat, size: nat, v: nat): nat {
    bits * Pow2(size) + v
  }

  /** The character made of the top 8 of n pending bits (`(bits >> (nBits - 8)) & 0xFF`). */
  function TopByteOf(b: nat, n: nat): int
    requires 8 <= n
  {
    b / Pow2(n - 8) % 256
  }

  /** The pending bits left below that character. */
  function LowBitsOf(b: nat, n: nat): nat
    requires 8 <= n
  {
    b % Pow2(n - 8)
  }

  /** The top 8 of n pending bits form a byte; the rest fit in n - 8 bits. */
  lemma {:induction false} ByteFromTop(b: nat, n: nat)
    requires 8 <= n && b < Pow2(n)
    ensures TopByteOf(b, n) == b / Pow2(n - 8) && 0 <= TopByteOf(b, n) < 256
    ensures LowBitsOf(b, n) < Pow2(n - 8)
  {
    TopByte(b, n - 8);
  }

  /** A marker, in the characters ahead, for a getChar that stops the program with a fatal error. */
  const FAIL: int := -2

  /**
   * The characters successive getChar calls will deliver, starting with the
   * current one; empty from EOF on, and ending with FAIL where a getChar fails.
   */
  ghost function Ahead(st: InState): seq<int>
    requires ValidIn(st)
    decreases Measure(st)
  {
    if st.nextChar == EOF then []
    else
      match GetCharF(st)
      case Err(_) => [st.nextChar, FAIL]
      case Ok(st') => [st.nextChar] + Ahead(st')
  }

  /** Once nextChar is EOF it stays EOF, and the width goes back to 8 bits. */
  lemma EofIsSticky(st: InState)
    requires ValidIn(st) && st.nextChar == EOF
    ensures GetCharF(st) == Ok(st.(byteSize := 8))
    ensures GetCharF(st).value.nextChar == EOF
  {
  }

  /** In 8-bit mode getChar delivers the next raw byte and counts it, or EOF at the end. */
  lemma EightBitGetChar(st: InState)
    requires ValidIn(st) && st.byteSize == 8 && st.nextChar != EOF
    ensures st.pos < |st.src| ==>
      GetCharF(st) == Ok(st.(pos := st.pos + 1, nextChar := st.src[st.pos] as int, count := st.count + 1))
    ensures st.pos == |st.src| ==> GetCharF(st) == Ok(st.(nextChar := EOF))
  {
  }

  /** In 8-bit mode the characters ahead are exactly the current one and the rest of the input. */
  lemma {:induction false} EightBitAhead(st: InState)
    requires ValidIn(st) && st.byteSize == 8
    ensures Ahead(st) == (if st.nextChar == EOF then [] else [st.nextChar]) + st.src[st.pos..]
    decreases Measure(st)
  {
    if st.nextChar != EOF {
      EightBitGetChar(st);
      var st' := GetCharF(st).value;
      EightBitAhead(st');
      if st.pos < |st.src| {
        assert st.src[st.pos..] == [st.src[st.pos]] + st.src[st.pos + 1..];
      }
    }
  }

  /**
   * A region terminator resets the width to 8 bits with nothing pending, and
   * warns exactly when the leftover bits are not all zero.
   */
  lemma TerminatorEndsRegion(st: InState)
    requires ValidIn(st) && st.nextChar != EOF && st.pos < |st.src|
    requires IsTerminator(st.byteSize, st.src[st.pos] as int)
    ensures GetCharF(st).Ok?
    ensures var st' := GetCharF(st).value;
      && st'.byteSize == 8 && st'.bits == 0 && st'.nBits == 0
      && st'.nextChar == st.src[st.pos] as int && st'.count == st.count
      && (st'.warnings == st.warnings + [UnusedBits(st.byteSize, st.nBits)] <==> st.bits != 0)
      && (st'.warnings == st.warnings <==> st.bits == 0)
  {
    Pow2Values();
  }

  /** White space, and '=' in base64, is skipped inside a restricted region without touching the pending bits. */
  lemma SkippedInRegion(st: InState)
    requires ValidIn(st) && st.nextChar != EOF && st.pos < |st.src| && st.byteSize != 8
    requires var c := st.src[st.pos] as int; IsWhiteSpace(c) || (st.byteSize == 6 && c == '=' as int)
    ensures GetCharF(st) == GetCharLoop(st.(pos := st.pos + 1))
  {
    var c := st.src[st.pos] as int;
    GetCharLoopIgnoresNextChar(st.(pos := st.pos + 1, nextChar := c), st.(pos := st.pos + 1));
  }

  /** Any other character of a restricted region that is not one of its digits is fatal. */
  lemma BadCharIsFatal(st: InState)
    requires ValidIn(st) && st.nextChar != EOF && st.pos < |st.src| && st.byteSize != 8
    requires var c := st.src[st.pos] as int;
      !IsTerminator(st.byteSize, c) && !IsWhiteSpace(c) && !(st.byteSize == 6 && c == '=' as int) && RegionDigit(st.byteSize, c).None?
    ensures GetCharF(st) == Err(BadRegionChar(st.src[st.pos] as int, st.byteSize))
  {
  }

  /** The read loop does not look at the character it is replacing. */
  lemma {:induction false} GetCharLoopIgnoresNextChar(st: InState, st': InState)
    requires ValidIn(st) && ValidIn(st') && st' == st.(nextChar := st'.nextChar)
    ensures GetCharLoop(st) == GetCharLoop(st')
  {
    if st.pos < |st.src| {
      var c := st.src[st.pos] as int;
      assert st.(pos := st.pos + 1, nextChar := c) == st'.(pos := st'.pos + 1, nextChar := c);
      assert GetCharStep(st) == GetCharStep(st');
    }
  }

  /** Two states that differ at most in the warnings issued so far. */
  predicate SameButWarnings(a: InState, b: InState) {
    a.(warnings := b.warnings) == b
  }

  /** A pass of the read loop does the same on states that differ only in their warnings. */
  lemma StepIgnoresWarnings(a: InState, b: InState)
    requires ValidIn(a) && a.pos < |a.src| && SameButWarnings(a, b)
    ensures ValidIn(b) && (GetCharStep(a).More? <==> GetCharStep(b).More?)
    ensures GetCharStep(a).More? ==> SameButWarnings(GetCharStep(a).st, GetCharStep(b).st)
    ensures GetCharStep(a).Stop? ==> (GetCharStep(a).r.Err? <==> GetCharStep(b).r.Err?)
    ensures GetCharStep(a).Stop? && GetCharStep(a).r.Err? ==> GetCharStep(a).r.error == GetCharStep(b).r.error
    ensures GetCharStep(a).Stop? && GetCharStep(a).r.Ok? ==> SameButWarnings(GetCharStep(a).r.value, GetCharStep(b).r.value)
  {
  }

  /** The read loop does the same on states that differ only in their warnings. */
  lemma {:induction false} LoopIgnoresWarnings(a: InState, b: InState)
    requires ValidIn(a) && SameButWarnings(a, b)
    ensures ValidIn(b) && (GetCharLoop(a).Err? <==> GetCharLoop(b).Err?)
    ensures GetCharLoop(a).Err? ==> GetCharLoop(a).error == GetCharLoop(b).error
    ensures GetCharLoop(a).Ok? ==> SameButWarnings(GetCharLoop(a).value, GetCharLoop(b).value)
    decreases |a.src| - a.pos
  {
    if a.pos < |a.src| {
      StepIgnoresWarnings(a, b);
      if GetCharStep(a).More? {
        LoopIgnoresWarnings(GetCharStep(a).st, GetCharStep(b).st);
      }
    }
  }

  /** Warnings never influence what getChar reads: the characters ahead do not depend on them. */
  lemma {:induction false} AheadIgnoresWarnings(a: InState, b: InState)
    requires ValidIn(a) && SameButWarnings(a, b)
    ensures ValidIn(b) && Ahead(a) == Ahead(b)
    decreases Measure(a)
  {
    if a.nextChar != EOF {
      LoopIgnoresWarnings(a, b);
      if GetCharF(a).Ok? {
        AheadIgnoresWarnings(GetCharF(a).value, GetCharF(b).value);
      }
    }
  }

  /**
   * The input stream (sexpInputStream). The FILE is replaced by the byte
   * sequence `src` and the read position `pos`; err becomes a returned
   * failure and warn an entry appended to `warnings`.
   */
  class InputStream {
    const src: seq<byte>
    var pos: nat
    var nextChar: int
    var byteSize: int
    var bits: nat
    var nBits: nat
    var count: int
    var warnings: seq<Warning>

    function State(): InState
      reads this
    {
      InState(src, pos, nextChar, byteSize, bits, nBits, count, warnings)
    }

    ghost predicate Valid()
      reads this
    {
      ValidIn(State())
    }

    /** newSexpInputStream, reading from `input`. */
    constructor (input: seq<byte>)
      ensures Valid() && State() == NewInState(input)
    {
      src := input;
      pos := 0;
      nextChar := ' ' as int;
      count := -1;
      byteSize := 8;
      bits := 0;
      nBits := 0;
      warnings := [];
      Pow2Values();
    }

    /** changeInputByteSize */
    method ChangeInputByteSize(newByteSize: int)
      modifies this
      ensures State() == ChangeInputByteSizeF(old(State()), newByteSize)
    {
      byteSize := newByteSize;
      nBits := 0;
      bits := 0;
    }

    /** warn: records a warning and goes on. */
    method Warn(w: Warning)
      modifies this
      ensures State() == old(State()).(warnings := old(State()).warnings + [w])
    {
      warnings := warnings + [w];
    }

    /** getChar: places the next 8-bit character in nextChar, or fails on a bad character in a region. */
    method GetChar() returns (r: Outcome)
      requires Valid()
      modifies this
      ensures var f := GetCharF(old(State()));
        && (r.Fail? <==> f.Err?)
        && (f.Err? ==> r.error == f.error)
        && (f.Ok? ==> Valid() && State() == f.value)
    {
      if nextChar == EOF {
        byteSize := 8;
        return Pass;
      }
      ghost var st0 := State();
      while pos < |src|
        invariant Valid() && src == st0.src && GetCharLoop(State()) == GetCharLoop(st0)
        decreases |src| - pos
      {
        var done;
        done, r := ReadPass();
        if done {
          return;
        }
      }
      nextChar := EOF;
      return Pass;
    }

    /** One pass of the read loop of getChar: consumes one input byte and either returns or reads on. */
    method ReadPass() returns (done: bool, r: Outcome)
      requires Valid() && pos < |src|
      modifies this
      ensures var step := GetCharStep(old(State()));
        && (done <==> step.Stop?)
        && (step.More? ==> Valid() && State() == step.st)
        && (step.Stop? ==> (r.Fail? <==> step.r.Err?) && (step.r.Err? ==> r.error == step.r.error)
                           && (step.r.Ok? ==> Valid() && State() == step.r.value))
    {
      var c := src[pos] as int;
      pos := pos + 1;
      nextChar := c;
      done, r := true, Pass;
      if IsTerminator(byteSize, c) {
        if nBits > 0 && bits % Pow2(nBits) != 0 {
          warnings := warnings + [UnusedBits(byteSize, nBits)];
        }
        ChangeInputByteSize(8);
        Pow2Values();
      } else if byteSize != 8 && IsWhiteSpace(c) {
        done := false;
      } else if byteSize == 6 && c == '=' as int {
        done := false;
      } else if byteSize == 8 {
        count := count + 1;
      } else {
        var d := RegionDigit(byteSize, c);
        if d.None? {
          return true, Fail(BadRegionChar(c, byteSize));
        }
        done := TakeDigit(d.value);
      }
    }

    /** The digit branch of the read loop: shifts the digit in and delivers a byte once 8 bits are pending. */
    method TakeDigit(v: nat) returns (done: bool)
      requires Valid() && nextChar != EOF && (byteSize == 4 || byteSize == 6) && v < Pow2(byteSize)
      modifies this
      ensures var s := TakeDigitF(old(State()), v);
        && Valid() && (done <==> s.Stop?)
        && (s.Stop? ==> State() == s.r.value) && (s.More? ==> State() == s.st)
    {
      ShiftIn(bits, nBits, v, byteSize);
      bits := ShiftDigit(bits, byteSize, v);
      nBits := nBits + byteSize;
      done := nBits >= 8;
      if done {
        ByteFromTop(bits, nBits);
        nextChar := TopByteOf(bits, nBits);
        bits := LowBitsOf(bits, nBits);
        nBits := nBits - 8;
        count := count + 1;
      }
    }
  }
}
