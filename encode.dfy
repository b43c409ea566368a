/**
 * The byte-level encodings the output channel implements, written
 * independently of it: base16 as in section 8 of RFC 4648 (upper-case
 * digits) and base64 as in section 4 of RFC 4648, with the padding of
 * section 3.2. The lemmas show that varPutChar over a run of bytes, then
 * flushOutput, writes exactly these digits (between line breaks, which are
 * white space).
 */
module SexpEncode {
  import opened SexpTypes
  import opened SexpChars
  import opened SexpOutput
  import opened SexpChannel

  /** Base16: two digits per byte, high nibble first. */
  function HexEncode(data: seq<byte>): (r: seq<byte>)
    ensures |r| == 2 * |data|
  {
    if |data| == 0 then [] else [HexDigit(data[0] / 16), HexDigit(data[0] % 16)] + HexEncode(data[1..])
  }

  /** The four digits of a whole group of three bytes. */
  function Base64Quantum(a: byte, b: byte, c: byte): seq<byte> {
    [Base64Digit(a / 4), Base64Digit(a % 4 * 16 + b / 16), Base64Digit(b % 16 * 4 + c / 64), Base64Digit(c % 64)]
  }

  /** Base64: four digits per group of three bytes; a final group of one or two bytes is padded with "==" or "=". */
  function Base64Encode(data: seq<byte>): (r: seq<byte>)
    ensures |r| == 4 * ((|data| + 2) / 3)
  {
    if |data| == 0 then []
    else if |data| == 1 then [Base64Digit(data[0] / 4), Base64Digit(data[0] % 4 * 16), PadChar, PadChar]
    else if |data| == 2 then
      [Base64Digit(data[0] / 4), Base64Digit(data[0] % 4 * 16 + data[1] / 16), Base64Digit(data[1] % 16 * 4), PadChar]
    else Base64Quantum(data[0], data[1], data[2]) + Base64Encode(data[3..])
  }

  /** Writing a + b is writing a, then b. */
  lemma {:induction false} PutBytesAppend(st: OutState, a: seq<byte>, b: seq<byte>)
    requires ValidOut(st)
    ensures PutBytesF(st, a + b) == PutBytesF(PutBytesF(st, a), b)
    decreases |a|
  {
    if |a| > 0 {
      assert (a + b)[0] == a[0] && (a + b)[1..] == a[1..] + b;
      PutBytesAppend(VarPutCharF(st, a[0]), a[1..], b);
    } else {
      assert a + b == b;
    }
  }

  /** Every run of bytes written in a hex region shows as its base16 encoding, and leaves nothing pending. */
  lemma {:induction false} HexPutBytes(st: OutState, data: seq<byte>)
    requires ValidOut(st) && st.byteSize == 4
    ensures var r := PutBytesF(st, data);
      r.nBits == 0 && Visible(r.out) == Visible(st.out) + HexEncode(data)
    decreases |data|
  {
    if |data| > 0 {
      var st1 := VarPutCharF(st, data[0]);
      HexPutChar(st, data[0]);
      HexPutBytes(st1, data[1..]);
      AppendAssoc(Visible(st.out), Visible(st1.out), Visible(PutBytesF(st1, data[1..]).out),
        [HexDigit(data[0] / 16), HexDigit(data[0] % 16)], HexEncode(data[1..]));
    } else {
      assert Visible(st.out) + [] == Visible(st.out);
    }
  }

  /** The same on a stream that never breaks a line: the encoding is all that is written. */
  lemma {:induction false} HexPutBytesQuiet(st: OutState, data: seq<byte>)
    requires ValidOut(st) && st.byteSize == 4 && Quiet(st)
    ensures PutBytesF(st, data).out == st.out + HexEncode(data)
    decreases |data|
  {
    if |data| > 0 {
      var st1 := VarPutCharF(st, data[0]);
      HexPutChar(st, data[0]);
      HexPutBytesQuiet(st1, data[1..]);
      AppendAssoc(st.out, st1.out, PutBytesF(st1, data[1..]).out,
        [HexDigit(data[0] / 16), HexDigit(data[0] % 16)], HexEncode(data[1..]));
    } else {
      assert st.out + [] == st.out;
    }
  }

  /** At width 8 a stream that never breaks a line writes the bytes themselves. */
  lemma {:induction false} EightBitPutBytesQuiet(st: OutState, data: seq<byte>)
    requires ValidOut(st) && st.byteSize == 8 && Quiet(st)
    ensures PutBytesF(st, data).out == st.out + data
    decreases |data|
  {
    if |data| > 0 {
      var st1 := VarPutCharF(st, data[0]);
      EightBitPutChar(st, data[0]);
      BreakInvisible(st, data[0]);
      EightBitPutBytesQuiet(st1, data[1..]);
      AppendAssoc(st.out, st1.out, PutBytesF(st1, data[1..]).out, [data[0]], data[1..]);
      assert [data[0]] + data[1..] == data;
    } else {
      assert st.out + [] == st.out;
    }
  }

  /** Writing one byte is one varPutChar. */
  lemma PutBytesOne(st: OutState, x: byte)
    requires ValidOut(st)
    ensures PutBytesF(st, [x]) == VarPutCharF(st, x)
  {
    assert [x][1..] == [];
  }

  /** Writing two bytes is two varPutChar calls. */
  lemma PutBytesTwo(st: OutState, x: byte, y: byte)
    requires ValidOut(st)
    ensures PutBytesF(st, [x, y]) == VarPutCharF(VarPutCharF(st, x), y)
  {
    assert [x, y][1..] == [y];
    PutBytesOne(VarPutCharF(st, x), y);
  }

  /** Writing three bytes is three varPutChar calls. */
  lemma PutBytesThree(st: OutState, x: byte, y: byte, z: byte)
    requires ValidOut(st)
    ensures PutBytesF(st, [x, y, z]) == VarPutCharF(VarPutCharF(VarPutCharF(st, x), y), z)
  {
    assert [x, y, z][1..] == [y, z];
    PutBytesTwo(VarPutCharF(st, x), y, z);
  }

  /** The first two bytes of a group show as its first two digits and leave the low four bits of the second pending. */
  lemma Base64PutPair(st: OutState, a: byte, b: byte)
    requires ValidOut(st) && st.byteSize == 6 && st.nBits == 0
    ensures var r := VarPutCharF(VarPutCharF(st, a), b);
      && ValidOut(r) && r.byteSize == 6 && r.nBits == 4 && r.bits == b % 16
      && Visible(r.out) == Visible(st.out) + [Base64Digit(a / 4), Base64Digit(a % 4 * 16 + b / 16)]
  {
    var s1 := VarPutCharF(st, a);
    Base64FirstByte(st, a);
    Base64SecondByte(s1, b);
    var d1, d2 := Base64Digit(a / 4), Base64Digit(a % 4 * 16 + b / 16);
    AppendAssoc(Visible(st.out), Visible(s1.out), Visible(VarPutCharF(s1, b).out), [d1], [d2]);
  }

  /** A whole group of three bytes written from a group boundary shows as its four digits and ends on a boundary. */
  lemma Base64PutQuantum(st: OutState, a: byte, b: byte, c: byte)
    requires ValidOut(st) && st.byteSize == 6 && st.nBits == 0
    ensures var r := PutBytesF(st, [a, b, c]);
      r.nBits == 0 && Visible(r.out) == Visible(st.out) + Base64Quantum(a, b, c)
  {
    var s2 := VarPutCharF(VarPutCharF(st, a), b);
    Base64PutPair(st, a, b);
    Base64ThirdByte(s2, c);
    PutBytesThree(st, a, b, c);
    AppendAssoc(Visible(st.out), Visible(s2.out), Visible(VarPutCharF(s2, c).out),
      [Base64Digit(a / 4), Base64Digit(a % 4 * 16 + b / 16)], [Base64Digit(b % 16 * 4 + c / 64), Base64Digit(c % 64)]);
  }

  /**
   * A run of bytes written into a fresh base64 region, then flushed, shows
   * as its base64 encoding with the padding of the last group.
   */
  lemma {:induction false} Base64PutBytes(st: OutState, data: seq<byte>)
    requires ValidOut(st) && st.byteSize == 6 && st.nBits == 0
    ensures Visible(FlushF(PutBytesF(st, data)).out) == Visible(st.out) + Base64Encode(data)
    decreases |data|
  {
    if |data| >= 3 {
      var head, tail := data[..3], data[3..];
      assert data == head + tail && head == [data[0], data[1], data[2]];
      PutBytesAppend(st, head, tail);
      Base64PutQuantum(st, data[0], data[1], data[2]);
      var st1 := PutBytesF(st, head);
      Base64PutBytes(st1, tail);
      AppendAssoc(Visible(st.out), Visible(st1.out), Visible(FlushF(PutBytesF(st1, tail)).out),
        Base64Quantum(data[0], data[1], data[2]), Base64Encode(tail));
    } else {
      Base64Remainder(st, data);
    }
  }

  /** The last group: nothing, one byte or two bytes before the flush. */
  lemma Base64Remainder(st: OutState, data: seq<byte>)
    requires ValidOut(st) && st.byteSize == 6 && st.nBits == 0 && |data| < 3
    ensures Visible(FlushF(PutBytesF(st, data)).out) == Visible(st.out) + Base64Encode(data)
  {
    if |data| == 0 {
      FlushVisible(st);
      assert FlushTail(st) == [];
    } else if |data| == 1 {
      Base64OneByte(st, data[0]);
      assert data == [data[0]];
    } else {
      Base64TwoBytes(st, data[0], data[1]);
      assert data == [data[0], data[1]];
    }
  }

  /** The encoding of one byte is its two digits and "==". */
  lemma Base64EncodeOne(x: byte)
    ensures Base64Encode([x]) == [Base64Digit(x / 4)] + [Base64Digit(x % 4 * 16), PadChar, PadChar]
  {
  }

  /** One byte, then the flush: two digits and "==". */
  lemma Base64OneByte(st: OutState, x: byte)
    requires ValidOut(st) && st.byteSize == 6 && st.nBits == 0
    ensures Visible(FlushF(PutBytesF(st, [x])).out) == Visible(st.out) + Base64Encode([x])
  {
    var s1 := VarPutCharF(st, x);
    Base64FirstByte(st, x);
    PutBytesOne(st, x);
    FlushVisible(s1);
    Base64EncodeOne(x);
    assert FlushTail(s1) == [Base64Digit(x % 4 * 16), PadChar, PadChar];
    AppendAssoc(Visible(st.out), Visible(s1.out), Visible(FlushF(s1).out), [Base64Digit(x / 4)], FlushTail(s1));
  }

  /** The encoding of two bytes is their three digits and one '='. */
  lemma Base64EncodeTwo(x: byte, y: byte)
    ensures Base64Encode([x, y])
      == [Base64Digit(x / 4), Base64Digit(x % 4 * 16 + y / 16)] + [Base64Digit(y % 16 * 4), PadChar]
  {
  }

  /** Two bytes, then the flush: three digits and "=". */
  lemma Base64TwoBytes(st: OutState, x: byte, y: byte)
    requires ValidOut(st) && st.byteSize == 6 && st.nBits == 0
    ensures Visible(FlushF(PutBytesF(st, [x, y])).out) == Visible(st.out) + Base64Encode([x, y])
  {
    var s2 := VarPutCharF(VarPutCharF(st, x), y);
    Base64PutPair(st, x, y);
    PutBytesTwo(st, x, y);
    FlushVisible(s2);
    Base64EncodeTwo(x, y);
    AppendAssoc(Visible(st.out), Visible(s2.out), Visible(FlushF(s2).out),
      [Base64Digit(x / 4), Base64Digit(x % 4 * 16 + y / 16)], FlushTail(s2));
  }

  /** b is a followed only by bytes that are not white space. */
  ghost predicate ShowsAll(a: seq<byte>, b: seq<byte>) {
    |a| <= |b| && b[..|a|] == a && Visible(b[|a|..]) == b[|a|..]
  }

  lemma ShowsAllRefl(a: seq<byte>)
    ensures ShowsAll(a, a)
  {
    assert a[|a|..] == [];
  }

  lemma ShowsAllOne(a: seq<byte>, d: byte)
    requires !IsWhiteSpace(d)
    ensures ShowsAll(a, a + [d])
  {
    assert (a + [d])[|a|..] == [d];
    VisibleAppendShown([], d);
    assert [] + [d] == [d];
  }

  lemma ShowsAllTrans(a: seq<byte>, b: seq<byte>, c: seq<byte>)
    requires ShowsAll(a, b) && ShowsAll(b, c)
    ensures ShowsAll(a, c)
  {
    var u, v := b[|a|..], c[|b|..];
    assert b == a + u && c == b + v;
    assert c == a + (u + v);
    assert c[|a|..] == u + v;
    VisibleAppend(u, v);
  }

  /** When nothing but visible bytes was added, what shows is what was added. */
  lemma ShowsAllExact(a: seq<byte>, b: seq<byte>, e: seq<byte>)
    requires ShowsAll(a, b) && Visible(b) == Visible(a) + e
    ensures b == a + e
  {
    var u, va := b[|a|..], Visible(a);
    assert b == a + u;
    VisibleAppend(a, u);
    assert va + u == va + e;
    assert u == (va + u)[|va|..] && e == (va + e)[|va|..];
  }

  /** On a quiet stream with a restricted width the digit loop writes only digits. */
  lemma {:induction false} EmitLoopShows(st: OutState, c: byte)
    requires LoopState(st) && st.byteSize != 8 && Quiet(st)
    ensures ShowsAll(st.out, EmitLoop(st, c).out)
    decreases st.nBits
  {
    if st.nBits >= st.byteSize {
      var s1 := EmitStep(st, c);
      EmitStepShape(st, c);
      ShowsAllOne(st.out, DigitChar(st.byteSize, TopDigit(st)));
      EmitLoopShows(s1, c);
      ShowsAllTrans(st.out, s1.out, EmitLoop(s1, c).out);
    } else {
      ShowsAllRefl(st.out);
    }
  }

  /** The same for varPutChar over a run of bytes. */
  lemma {:induction false} PutBytesShows(st: OutState, data: seq<byte>)
    requires ValidOut(st) && st.byteSize != 8 && Quiet(st)
    ensures ShowsAll(st.out, PutBytesF(st, data).out)
    decreases |data|
  {
    if |data| > 0 {
      var s1 := VarPutCharF(st, data[0]);
      VarPutCharUnfold(st, data[0]);
      EmitLoopShows(st.(bits := st.bits * 256 + data[0], nBits := st.nBits + 8), data[0]);
      PutBytesShows(s1, data[1..]);
      ShowsAllTrans(st.out, s1.out, PutBytesF(s1, data[1..]).out);
    } else {
      ShowsAllRefl(st.out);
    }
  }

  /** Appending bytes none of which is white space. */
  lemma ShowsAllAppend(a: seq<byte>, t: seq<byte>)
    requires Visible(t) == t
    ensures ShowsAll(a, a + t)
  {
    assert (a + t)[|a|..] == t && (a + t)[..|a|] == a;
  }

  /** The tail of flushOutput is a digit and padding, none of it white space. */
  lemma FlushTailShown(st: OutState)
    requires ValidOut(st) && st.byteSize == 6
    ensures Visible(FlushTail(st)) == FlushTail(st)
  {
    var t := FlushTail(st);
    if st.nBits > 0 {
      var d := t[0];
      VisibleAppendShown([], d);
      assert [] + [d] == [d];
      VisibleAppendShown([d], PadChar);
      if st.nBits == 2 {
        VisibleAppendShown([d, PadChar], PadChar);
        assert [d] + [PadChar] + [PadChar] == t;
      } else {
        assert [d] + [PadChar] == t;
      }
    }
  }

  /** flushOutput on a quiet stream writes nothing but digits and padding. */
  lemma FlushShows(st: OutState)
    requires ValidOut(st) && st.byteSize == 6 && Quiet(st)
    ensures ShowsAll(st.out, FlushF(st).out)
  {
    FlushQuiet(st);
    FlushTailShown(st);
    ShowsAllAppend(st.out, FlushTail(st));
  }

  /** On a stream that never breaks a line, a base64 region holds exactly the encoding of what was written into it. */
  lemma Base64PutBytesQuiet(st: OutState, data: seq<byte>)
    requires ValidOut(st) && st.byteSize == 6 && st.nBits == 0 && Quiet(st)
    ensures FlushF(PutBytesF(st, data)).out == st.out + Base64Encode(data)
  {
    var s1 := PutBytesF(st, data);
    PutBytesShows(st, data);
    FlushShows(s1);
    ShowsAllTrans(st.out, s1.out, FlushF(s1).out);
    Base64PutBytes(st, data);
    ShowsAllExact(st.out, FlushF(s1).out, Base64Encode(data));
  }
}
