/**
 * Reading back what the output stream writes in its hex and base64
 * regions: getChar, once switched to 4 or 6 bits, turns the base16 and
 * base64 encodings of section 8 and section 4 of RFC 4648 (with the padding
 * of section 3.2) into the original bytes, and scanHexString and
 * scanBase64String return them.
 */
module SexpRegionRead {
  import opened SexpTypes
  import opened SexpChars
  import opened SexpBits
  import opened SexpInput
  import opened SexpScanSpec
  import opened SexpReading
  import opened SexpEncode

  /**
   * The state a region leaves once getChar has delivered its closing
   * delimiter d: 8 bits wide, nothing pending, `tail` still unread and n
   * more characters counted.
   */
  function RegionEnd(st: InState, d: byte, n: nat, tail: seq<byte>): InState
    requires |tail| <= |st.src|
  {
    st.(pos := |st.src| - |tail|, nextChar := d, byteSize := 8, nBits := 0, bits := 0, count := st.count + n)
  }

  /** The end of a region seen from a state k characters earlier on the same input. */
  lemma EndShift(a: InState, b: InState, d: byte, n: nat, k: nat, m: nat, tail: seq<byte>)
    requires a.src == b.src && a.warnings == b.warnings && b.count == a.count + k && |tail| <= |a.src| && m == n + k
    ensures RegionEnd(b, d, n, tail) == RegionEnd(a, d, m, tail)
  {
  }

  /** The unread input starts with w: its first bytes are those of w, and r follows. */
  lemma TakeFront(src: seq<byte>, pos: nat, w: seq<byte>, r: seq<byte>)
    requires pos <= |src| && src[pos..] == w + r
    ensures pos + |w| + |r| == |src| && src[pos + |w|..] == r
    ensures forall i :: 0 <= i < |w| ==> src[pos + i] == w[i]
  {
    assert forall i :: 0 <= i < |w| ==> src[pos + i] == src[pos..][i];
    assert src[pos + |w|..] == src[pos..][|w|..];
  }

  /** Four parts of the unread input, regrouped. */
  lemma Regroup(a: seq<byte>, b: seq<byte>, d: byte, t: seq<byte>)
    ensures a + b + [d] + t == a + (b + [d] + t)
  {
  }

  /** Appending a byte and then a run is appending the run that starts with it. */
  lemma AppendRun(acc: seq<byte>, x: byte, s: seq<byte>)
    ensures |s| > 0 ==> acc + [s[0]] + s[1..] == acc + s
    ensures acc + [x] + [] == acc + [x] && acc + [] == acc
  {
    if |s| > 0 {
      assert s == [s[0]] + s[1..];
    }
  }

  /** Appending three bytes and then a run is appending the run that starts with them. */
  lemma AppendQuantum(acc: seq<byte>, s: seq<byte>)
    requires |s| >= 3
    ensures acc + [s[0]] + [s[1]] + [s[2]] + s[3..] == acc + s
  {
    assert s == [s[0], s[1], s[2]] + s[3..];
  }

  /**
   * A region's closing delimiter, after skipped characters and with no
   * nonzero bits pending: getChar delivers it, ends the region and warns of nothing.
   */
  lemma {:induction false} CloseRegion(st: InState, p: seq<byte>, d: byte, tail: seq<byte>)
    requires ValidIn(st) && st.bits == 0 && IsTerminator(st.byteSize, d)
    requires forall i :: 0 <= i < |p| ==> st.byteSize == 6 && p[i] == PadChar
    requires st.pos <= |st.src| && st.src[st.pos..] == p + [d] + tail
    ensures |tail| <= |st.src| && GetCharLoop(st) == Ok(RegionEnd(st, d, 0, tail))
    decreases |p|
  {
    TakeFront(st.src, st.pos, p + [d], tail);
    if |p| == 0 {
      assert st.src[st.pos] == (p + [d])[0];
      CloseNow(st, d, tail);
    } else {
      assert st.src[st.pos] == (p + [d])[0] == PadChar;
      PadStep(st);
      var st' := st.(pos := st.pos + 1, nextChar := PadChar);
      PeelPad(p, d, tail);
      TakeFront(st.src, st.pos, [p[0]], p[1..] + [d] + tail);
      CloseRegion(st', p[1..], d, tail);
      EndShift(st, st', d, 0, 0, 0, tail);
    }
  }

  /** The first skipped character and the rest. */
  lemma PeelPad(p: seq<byte>, d: byte, tail: seq<byte>)
    requires |p| > 0
    ensures p + [d] + tail == [p[0]] + (p[1..] + [d] + tail)
  {
    assert p == [p[0]] + p[1..];
  }

  /** The delimiter itself, with no nonzero bits pending. */
  lemma CloseNow(st: InState, d: byte, tail: seq<byte>)
    requires ValidIn(st) && st.bits == 0 && IsTerminator(st.byteSize, d)
    requires st.pos < |st.src| && st.src[st.pos] == d && st.pos + 1 + |tail| == |st.src|
    ensures GetCharLoop(st) == Ok(RegionEnd(st, d, 0, tail))
  {
    Pow2Values();
    assert LeftoverWarning(st) == [];
    assert st.warnings + [] == st.warnings;
  }

  /** A pad character is skipped in a base64 region. */
  lemma PadStep(st: InState)
    requires ValidIn(st) && st.byteSize == 6 && st.pos < |st.src| && st.src[st.pos] == PadChar
    ensures GetCharLoop(st) == GetCharLoop(st.(pos := st.pos + 1, nextChar := PadChar))
  {
  }

  /** A pass of the read loop that goes on reading. */
  lemma LoopMore(st: InState, st': InState)
    requires ValidIn(st) && st.pos < |st.src| && GetCharStep(st) == More(st')
    ensures GetCharLoop(st) == GetCharLoop(st')
  {
  }

  /** A pass of the read loop that returns. */
  lemma LoopStop(st: InState, r: Result<InState>)
    requires ValidIn(st) && st.pos < |st.src| && GetCharStep(st) == Stop(r)
    ensures GetCharLoop(st) == r
  {
  }

  /** A hex digit of value v, read in a hex region, joins the pending bits. */
  lemma HexDigitStep(st: InState, v: nat)
    requires ValidIn(st) && st.byteSize == 4 && st.pos < |st.src|
    requires v < 16 && st.src[st.pos] == HexDigit(v)
    ensures GetCharStep(st) == TakeDigitF(st.(pos := st.pos + 1, nextChar := HexDigit(v)), v)
  {
    assert Pow2(4) == 16 by { Pow2Values(); }
    assert RegionDigit(4, HexDigit(v)) == Some(v);
  }

  /** A digit that leaves fewer than 8 bits pending delivers nothing yet. */
  lemma TakePartial(st: InState, v: nat)
    requires ValidIn(st) && st.nextChar != EOF && (st.byteSize == 4 || st.byteSize == 6) && v < Pow2(st.byteSize)
    requires st.nBits + st.byteSize < 8
    ensures TakeDigitF(st, v) == More(st.(bits := ShiftDigit(st.bits, st.byteSize, v), nBits := st.nBits + st.byteSize))
  {
  }

  /** A digit that makes 8 or more bits pending delivers their top byte. */
  lemma TakeWhole(st: InState, v: nat)
    requires ValidIn(st) && st.nextChar != EOF && (st.byteSize == 4 || st.byteSize == 6) && v < Pow2(st.byteSize)
    requires st.nBits + st.byteSize >= 8
    ensures var b, n := ShiftDigit(st.bits, st.byteSize, v), st.nBits + st.byteSize;
      TakeDigitF(st, v) == Stop(Ok(st.(nextChar := TopByteOf(b, n), bits := LowBitsOf(b, n), nBits := n - 8, count := st.count + 1)))
  {
  }

  /** In a hex region with nothing pending, the two digits of byte b deliver b. */
  lemma HexPair(st: InState, b: byte)
    requires ValidIn(st) && st.byteSize == 4 && st.nBits == 0 && st.nextChar != EOF
    requires st.pos + 2 <= |st.src| && st.src[st.pos] == HexDigit(b / 16) && st.src[st.pos + 1] == HexDigit(b % 16)
    ensures GetCharF(st) == Ok(st.(pos := st.pos + 2, nextChar := b, count := st.count + 1))
  {
    assert Pow2(4) == 16 && st.bits == 0 by { Pow2Values(); }
    var hi, lo := b / 16, b % 16;
    HexDigitStep(st, hi);
    var st1 := st.(pos := st.pos + 1, nextChar := HexDigit(hi) as int);
    TakePartial(st1, hi);
    assert ShiftDigit(0, 4, hi) == hi;
    var st2 := st1.(bits := hi, nBits := 4);
    LoopMore(st, st2);
    HexDigitStep(st2, lo);
    var st3 := st2.(pos := st2.pos + 1, nextChar := HexDigit(lo) as int);
    TakeWhole(st3, lo);
    NibbleJoin(b);
    var e := st.(pos := st.pos + 2, nextChar := b, count := st.count + 1);
    assert st3.(nextChar := b, bits := 0, nBits := 0, count := st3.count + 1) == e;
    LoopStop(st2, Ok(e));
  }

  /** A byte is its high nibble shifted above its low nibble. */
  lemma NibbleJoin(b: byte)
    ensures ShiftDigit(b / 16, 4, b % 16) == b && TopByteOf(b, 8) == b && LowBitsOf(b, 8) == 0
  {
    Pow2Values();
  }

  /**
   * From a hex region with nothing pending and the digits of s, then '#',
   * ahead in the input: getChar delivers the first byte, and the copy loop
   * of scanHexString then collects all of s and stops at the '#' that ends
   * the region.
   */
  lemma {:induction false} HexFrom(st: InState, acc: seq<byte>, s: seq<byte>, tail: seq<byte>) returns (st': InState)
    requires ValidIn(st) && st.byteSize == 4 && st.nBits == 0 && st.nextChar != EOF
    requires st.src[st.pos..] == HexEncode(s) + [Hash] + tail
    ensures |tail| <= |st.src| && GetCharF(st) == Ok(st')
    ensures RegionLoop(st', acc, 4, '#') == Ok(Scanned(acc + s, RegionEnd(st, Hash, |s|, tail)))
    decreases |s|
  {
    AppendRun(acc, 0, s);
    if |s| == 0 {
      CloseRegion(st, [], Hash, tail);
      st' := RegionEnd(st, Hash, 0, tail);
    } else {
      var b := s[0];
      var w := [HexDigit(b / 16), HexDigit(b % 16)];
      assert HexEncode(s) == w + HexEncode(s[1..]);
      Regroup(w, HexEncode(s[1..]), Hash, tail);
      TakeFront(st.src, st.pos, w, HexEncode(s[1..]) + [Hash] + tail);
      HexPair(st, b);
      st' := st.(pos := st.pos + 2, nextChar := b, count := st.count + 1);
      var st2 := HexFrom(st', acc + [b], s[1..], tail);
      EndShift(st, st', Hash, |s[1..]|, 1, |s|, tail);
    }
  }

  /** A base64 digit of value v, read in a base64 region, joins the pending bits. */
  lemma Base64DigitStep(st: InState, v: nat)
    requires ValidIn(st) && st.byteSize == 6 && st.nextChar != EOF && st.pos < |st.src|
    requires v < 64 && st.src[st.pos] == Base64Digit(v)
    ensures GetCharStep(st) == TakeDigitF(st.(pos := st.pos + 1, nextChar := Base64Digit(v)), v)
  {
  }

  /** In a base64 region with nothing pending, two digits deliver a byte a and leave the 4 bits k pending. */
  lemma Base64First(st: InState, a: byte, k: nat)
    requires ValidIn(st) && st.byteSize == 6 && st.nBits == 0 && st.nextChar != EOF && k < 16
    requires st.pos + 2 <= |st.src| && st.src[st.pos] == Base64Digit(a / 4) && st.src[st.pos + 1] == Base64Digit(a % 4 * 16 + k)
    ensures GetCharF(st) == Ok(st.(pos := st.pos + 2, nextChar := a, bits := k, nBits := 4, count := st.count + 1))
  {
    assert Pow2(6) == 64 && st.bits == 0 by { Pow2Values(); }
    var v1, v2 := a / 4, a % 4 * 16 + k;
    Base64DigitStep(st, v1);
    var st1 := st.(pos := st.pos + 1, nextChar := Base64Digit(v1));
    TakePartial(st1, v1);
    assert ShiftDigit(0, 6, v1) == v1;
    var st2 := st1.(bits := v1, nBits := 6);
    LoopMore(st, st2);
    Base64DigitStep(st2, v2);
    var st3 := st2.(pos := st2.pos + 1, nextChar := Base64Digit(v2));
    TakeWhole(st3, v2);
    SextetJoin(a, k);
    var e := st.(pos := st.pos + 2, nextChar := a, bits := k, nBits := 4, count := st.count + 1);
    assert st3.(nextChar := a, bits := k, nBits := 4, count := st3.count + 1) == e;
    LoopStop(st2, Ok(e));
  }

  /** The six bits a / 4 above the six bits a % 4 * 16 + k: the byte a above the 4 bits k. */
  lemma SextetJoin(a: byte, k: nat)
    requires k < 16
    ensures ShiftDigit(a / 4, 6, a % 4 * 16 + k) == a * 16 + k
    ensures TopByteOf(a * 16 + k, 12) == a && LowBitsOf(a * 16 + k, 12) == k
  {
    Pow2Values();
    DivUnique(a * 16 + k, 16, a, k);
  }

  /** With the high half of byte b pending, one digit delivers b and leaves the 2 bits j pending. */
  lemma Base64Second(st: InState, b: byte, j: nat)
    requires ValidIn(st) && st.byteSize == 6 && st.nBits == 4 && st.bits == b / 16 && st.nextChar != EOF && j < 4
    requires st.pos + 1 <= |st.src| && st.src[st.pos] == Base64Digit(b % 16 * 4 + j)
    ensures GetCharF(st) == Ok(st.(pos := st.pos + 1, nextChar := b, bits := j, nBits := 2, count := st.count + 1))
  {
    assert Pow2(6) == 64 by { Pow2Values(); }
    var v := b % 16 * 4 + j;
    Base64DigitStep(st, v);
    var st1 := st.(pos := st.pos + 1, nextChar := Base64Digit(v));
    TakeWhole(st1, v);
    NibbleSplit(b, j);
    var e := st.(pos := st.pos + 1, nextChar := b, bits := j, nBits := 2, count := st.count + 1);
    assert st1.(nextChar := b, bits := j, nBits := 2, count := st1.count + 1) == e;
    LoopStop(st, Ok(e));
  }

  /** The high nibble of b above the six bits b % 16 * 4 + j: the byte b above the 2 bits j. */
  lemma NibbleSplit(b: byte, j: nat)
    requires j < 4
    ensures ShiftDigit(b / 16, 6, b % 16 * 4 + j) == b * 4 + j
    ensures TopByteOf(b * 4 + j, 10) == b && LowBitsOf(b * 4 + j, 10) == j
  {
    Pow2Values();
    DivUnique(b * 4 + j, 4, b, j);
  }

  /** With the top 2 bits of byte c pending, one digit delivers c and leaves nothing pending. */
  lemma Base64Third(st: InState, c: byte)
    requires ValidIn(st) && st.byteSize == 6 && st.nBits == 2 && st.bits == c / 64 && st.nextChar != EOF
    requires st.pos + 1 <= |st.src| && st.src[st.pos] == Base64Digit(c % 64)
    ensures GetCharF(st) == Ok(st.(pos := st.pos + 1, nextChar := c, bits := 0, nBits := 0, count := st.count + 1))
  {
    assert Pow2(6) == 64 by { Pow2Values(); }
    var v := c % 64;
    Base64DigitStep(st, v);
    var st1 := st.(pos := st.pos + 1, nextChar := Base64Digit(v));
    TakeWhole(st1, v);
    PairJoin(c);
    var e := st.(pos := st.pos + 1, nextChar := c, bits := 0, nBits := 0, count := st.count + 1);
    assert st1.(nextChar := c, bits := 0, nBits := 0, count := st1.count + 1) == e;
    LoopStop(st, Ok(e));
  }

  /** The top 2 bits of c above its low six bits: the byte c itself. */
  lemma PairJoin(c: byte)
    ensures ShiftDigit(c / 64, 6, c % 64) == c && TopByteOf(c, 8) == c && LowBitsOf(c, 8) == 0
  {
    Pow2Values();
  }

  /** Inside the region the copy loop keeps the current character and reads the next. */
  lemma LoopOn(st: InState, st': InState, acc: seq<byte>, size: int, delim: char, c: byte)
    requires ValidIn(st) && st.nextChar == c && st.byteSize == size && GetCharF(st) == Ok(st')
    ensures RegionLoop(st, acc, size, delim) == RegionLoop(st', acc + [c], size, delim)
  {
    assert LowByte(c) == c;
  }

  /** At the delimiter, once the region has ended, the copy loop stops. */
  lemma LoopOff(e: InState, acc: seq<byte>, size: int, delim: char)
    requires ValidIn(e) && e.nextChar == delim as int && e.byteSize != size
    ensures RegionLoop(e, acc, size, delim) == Ok(Scanned(acc, e))
  {
  }

  /** The last character of the region is kept, and the delimiter that ends the region stops the loop. */
  lemma LoopLast(st: InState, e: InState, acc: seq<byte>, size: int, delim: char, c: byte)
    requires ValidIn(st) && st.nextChar == c && st.byteSize == size && GetCharF(st) == Ok(e)
    requires e.nextChar == delim as int && e.byteSize != size
    ensures RegionLoop(st, acc, size, delim) == Ok(Scanned(acc + [c], e))
  {
    assert LowByte(c) == c;
    LoopOff(e, acc + [c], size, delim);
  }

  /** Four bytes, a delimiter and a tail, split after the first two bytes. */
  lemma SplitFour(x1: byte, x2: byte, x3: byte, x4: byte, d: byte, tail: seq<byte>)
    ensures [x1, x2, x3, x4] + [d] + tail == [x1, x2] + ([x3, x4] + [d] + tail)
  {
  }

  /** The base64 text of one byte, then a delimiter d and the tail. */
  lemma OneText(s: seq<byte>, d: byte, tail: seq<byte>)
    requires |s| == 1
    ensures Base64Encode(s) + [d] + tail == [Base64Digit(s[0] / 4), Base64Digit(s[0] % 4 * 16 + 0)] + ([PadChar, PadChar] + [d] + tail)
  {
    var x1, x2 := Base64Digit(s[0] / 4), Base64Digit(s[0] % 4 * 16 + 0);
    assert Base64Encode(s) == [x1, x2, PadChar, PadChar];
    SplitFour(x1, x2, PadChar, PadChar, d, tail);
  }

  /** The base64 text of two bytes, then a delimiter d and the tail. */
  lemma TwoText(s: seq<byte>, d: byte, tail: seq<byte>)
    requires |s| == 2
    ensures Base64Encode(s) + [d] + tail
      == [Base64Digit(s[0] / 4), Base64Digit(s[0] % 4 * 16 + s[1] / 16)] + ([Base64Digit(s[1] % 16 * 4 + 0), PadChar] + [d] + tail)
  {
    var x1, x2, x3 := Base64Digit(s[0] / 4), Base64Digit(s[0] % 4 * 16 + s[1] / 16), Base64Digit(s[1] % 16 * 4 + 0);
    assert Base64Encode(s) == [x1, x2, x3, PadChar];
    SplitFour(x1, x2, x3, PadChar, d, tail);
  }

  /** The base64 text of three or more bytes, then a delimiter d and the tail: a whole group first. */
  lemma GroupText(s: seq<byte>, d: byte, tail: seq<byte>)
    requires |s| >= 3
    ensures Base64Encode(s) + [d] + tail == Base64Quantum(s[0], s[1], s[2]) + (Base64Encode(s[3..]) + [d] + tail)
  {
    assert Base64Encode(s) == Base64Quantum(s[0], s[1], s[2]) + Base64Encode(s[3..]);
    Regroup(Base64Quantum(s[0], s[1], s[2]), Base64Encode(s[3..]), d, tail);
  }

  /** The base64 form of no bytes: the '|' comes next and ends the region. */
  lemma Base64FromEmpty(st: InState, acc: seq<byte>, tail: seq<byte>) returns (st': InState)
    requires ValidIn(st) && st.byteSize == 6 && st.nBits == 0 && st.nextChar != EOF
    requires st.src[st.pos..] == [Bar] + tail
    ensures |tail| <= |st.src| && GetCharF(st) == Ok(st')
    ensures RegionLoop(st', acc, 6, '|') == Ok(Scanned(acc, RegionEnd(st, Bar, 0, tail)))
  {
    CloseRegion(st, [], Bar, tail);
    st' := RegionEnd(st, Bar, 0, tail);
  }

  /** The base64 form of one byte: two digits, "==" and the closing '|'. */
  lemma Base64FromOne(st: InState, acc: seq<byte>, s: seq<byte>, tail: seq<byte>) returns (st': InState)
    requires ValidIn(st) && st.byteSize == 6 && st.nBits == 0 && st.nextChar != EOF && |s| == 1
    requires st.src[st.pos..] == Base64Encode(s) + [Bar] + tail
    ensures |tail| <= |st.src| && GetCharF(st) == Ok(st')
    ensures RegionLoop(st', acc, 6, '|') == Ok(Scanned(acc + s, RegionEnd(st, Bar, 1, tail)))
  {
    var a := s[0];
    var w := [Base64Digit(a / 4), Base64Digit(a % 4 * 16 + 0)];
    OneText(s, Bar, tail);
    TakeFront(st.src, st.pos, w, [PadChar, PadChar] + [Bar] + tail);
    Base64First(st, a, 0);
    st' := st.(pos := st.pos + 2, nextChar := a, bits := 0, nBits := 4, count := st.count + 1);
    CloseRegion(st', [PadChar, PadChar], Bar, tail);
    var e := RegionEnd(st, Bar, 1, tail);
    EndShift(st, st', Bar, 0, 1, 1, tail);
    LoopLast(st', e, acc, 6, '|', a);
    assert acc + [a] == acc + s;
  }

  /** The base64 form of two bytes: three digits, "=" and the closing '|'. */
  lemma Base64FromTwo(st: InState, acc: seq<byte>, s: seq<byte>, tail: seq<byte>) returns (st': InState)
    requires ValidIn(st) && st.byteSize == 6 && st.nBits == 0 && st.nextChar != EOF && |s| == 2
    requires st.src[st.pos..] == Base64Encode(s) + [Bar] + tail
    ensures |tail| <= |st.src| && GetCharF(st) == Ok(st')
    ensures RegionLoop(st', acc, 6, '|') == Ok(Scanned(acc + s, RegionEnd(st, Bar, 2, tail)))
  {
    var a, b := s[0], s[1];
    st' := Base64TwoStart(st, s, Bar, tail);
    var st2 := Base64SecondLast(st', b, Bar, tail);
    var e := RegionEnd(st, Bar, 2, tail);
    EndShift(st, st', Bar, 1, 1, 2, tail);
    LoopLast(st2, e, acc + [a], 6, '|', b);
    LoopOn(st', st2, acc, 6, '|', a);
    assert acc + [a] + [b] == acc + s;
  }

  /** The first two digits of a two-byte group deliver its first byte and leave four bits of the second pending. */
  lemma Base64TwoStart(st: InState, s: seq<byte>, d: byte, tail: seq<byte>) returns (st': InState)
    requires ValidIn(st) && st.byteSize == 6 && st.nBits == 0 && st.nextChar != EOF && |s| == 2
    requires st.src[st.pos..] == Base64Encode(s) + [d] + tail
    ensures st' == st.(pos := st.pos + 2, nextChar := s[0], bits := s[1] / 16, nBits := 4, count := st.count + 1)
    ensures GetCharF(st) == Ok(st') && |tail| <= |st.src|
    ensures st'.src[st'.pos..] == [Base64Digit(s[1] % 16 * 4 + 0), PadChar] + [d] + tail
  {
    var a, b := s[0], s[1];
    var w := [Base64Digit(a / 4), Base64Digit(a % 4 * 16 + b / 16)];
    var r := [Base64Digit(b % 16 * 4 + 0), PadChar] + [d] + tail;
    TwoText(s, d, tail);
    TakeFront(st.src, st.pos, w, r);
    Base64First(st, a, b / 16);
    st' := st.(pos := st.pos + 2, nextChar := a, bits := b / 16, nBits := 4, count := st.count + 1);
  }

  /** The last digit of a two-byte group delivers its second byte; "=" and the delimiter d then end the region. */
  lemma Base64SecondLast(st: InState, b: byte, d: byte, tail: seq<byte>) returns (st2: InState)
    requires ValidIn(st) && st.byteSize == 6 && st.nBits == 4 && st.bits == b / 16 && st.nextChar != EOF
    requires IsTerminator(6, d) && st.src[st.pos..] == [Base64Digit(b % 16 * 4 + 0), PadChar] + [d] + tail
    ensures |tail| <= |st.src| && GetCharF(st) == Ok(st2) && st2.nextChar == b
    ensures GetCharF(st2) == Ok(RegionEnd(st, d, 1, tail))
  {
    TakeFront(st.src, st.pos, [Base64Digit(b % 16 * 4 + 0)], [PadChar] + [d] + tail);
    Base64Second(st, b, 0);
    st2 := st.(pos := st.pos + 1, nextChar := b, bits := 0, nBits := 2, count := st.count + 1);
    CloseRegion(st2, [PadChar], d, tail);
    EndShift(st, st2, d, 0, 1, 1, tail);
  }

  /** A whole group of three bytes: four digits deliver them and leave nothing pending. */
  lemma Base64Group(st: InState, a: byte, b: byte, c: byte, r: seq<byte>) returns (st1: InState, st2: InState, st3: InState)
    requires ValidIn(st) && st.byteSize == 6 && st.nBits == 0 && st.nextChar != EOF
    requires st.src[st.pos..] == Base64Quantum(a, b, c) + r
    ensures GetCharF(st) == Ok(st1) && st1.nextChar == a && st1.byteSize == 6
    ensures GetCharF(st1) == Ok(st2) && st2.nextChar == b && st2.byteSize == 6
    ensures GetCharF(st2) == Ok(st3) && st3.warnings == st.warnings
    ensures st3 == st.(pos := st.pos + 4, nextChar := c, count := st.count + 3) && st3.src[st3.pos..] == r
  {
    var w := Base64Quantum(a, b, c);
    TakeFront(st.src, st.pos, w, r);
    Base64First(st, a, b / 16);
    st1 := st.(pos := st.pos + 2, nextChar := a, bits := b / 16, nBits := 4, count := st.count + 1);
    Base64Second(st1, b, c / 64);
    st2 := st1.(pos := st1.pos + 1, nextChar := b, bits := c / 64, nBits := 2, count := st1.count + 1);
    Base64Third(st2, c);
    st3 := st2.(pos := st2.pos + 1, nextChar := c, bits := 0, nBits := 0, count := st2.count + 1);
  }

  /**
   * From a base64 region with nothing pending and the base64 form of s,
   * then '|', ahead in the input: getChar delivers the first byte, and the
   * copy loop of scanBase64String then collects all of s and stops at the
   * '|' that ends the region.
   */
  lemma {:induction false} Base64From(st: InState, acc: seq<byte>, s: seq<byte>, tail: seq<byte>) returns (st': InState)
    requires ValidIn(st) && st.byteSize == 6 && st.nBits == 0 && st.nextChar != EOF
    requires st.src[st.pos..] == Base64Encode(s) + [Bar] + tail
    ensures |tail| <= |st.src| && GetCharF(st) == Ok(st')
    ensures RegionLoop(st', acc, 6, '|') == Ok(Scanned(acc + s, RegionEnd(st, Bar, |s|, tail)))
    decreases |s|
  {
    if |s| == 0 {
      assert Base64Encode(s) + [Bar] + tail == [Bar] + tail;
      st' := Base64FromEmpty(st, acc, tail);
      assert acc + s == acc;
    } else if |s| == 1 {
      st' := Base64FromOne(st, acc, s, tail);
    } else if |s| == 2 {
      st' := Base64FromTwo(st, acc, s, tail);
    } else {
      var a, b, c := s[0], s[1], s[2];
      GroupText(s, Bar, tail);
      var st2, st3;
      st', st2, st3 := Base64Group(st, a, b, c, Base64Encode(s[3..]) + [Bar] + tail);
      var st4 := Base64From(st3, acc + [a] + [b] + [c], s[3..], tail);
      var e := RegionEnd(st, Bar, |s|, tail);
      EndShift(st, st3, Bar, |s[3..]|, 3, |s|, tail);
      assert RegionLoop(st4, acc + [a] + [b] + [c], 6, '|') == Ok(Scanned(acc + [a] + [b] + [c] + s[3..], e));
      GroupLoop(st', st2, st3, st4, acc, s, e);
    }
  }

  /** The state a region leaves, with delimiter d and then the tail unread, delivers d and then the tail. */
  lemma EndAhead(st: InState, p: seq<byte>, d: byte, n: nat, tail: seq<byte>)
    requires st.pos <= |st.src| && st.src[st.pos..] == p + [d] + tail
    ensures |tail| <= |st.src| && ValidIn(RegionEnd(st, d, n, tail))
    ensures Ahead(RegionEnd(st, d, n, tail)) == [d] + tail
  {
    TakeFront(st.src, st.pos, p + [d], tail);
    Pow2Values();
    EightBitAhead(RegionEnd(st, d, n, tail));
  }

  /** A getChar that leads to a state with t ahead: the current character, then t. */
  lemma AheadVia(st: InState, st1: InState, t: seq<int>)
    requires ValidIn(st) && st.nextChar != EOF && GetCharF(st) == Ok(st1) && Ahead(st1) == t
    ensures Ahead(st) == [st.nextChar] + t
  {
    AheadStep(st);
  }

  /** With only padding before a delimiter that ends the region, the current character is followed by d and the tail. */
  lemma CloseAhead(st: InState, p: seq<byte>, d: byte, tail: seq<byte>)
    requires ValidIn(st) && st.nextChar != EOF && st.bits == 0 && st.byteSize == 6 && IsTerminator(6, d)
    requires forall i :: 0 <= i < |p| ==> p[i] == PadChar
    requires st.src[st.pos..] == p + [d] + tail
    ensures Ahead(st) == [st.nextChar] + ([d] + tail)
  {
    CloseRegion(st, p, d, tail);
    EndAhead(st, p, d, 0, tail);
    AheadVia(st, RegionEnd(st, d, 0, tail), [d] + tail);
  }

  /**
   * From a base64 region with nothing pending and the base64 form of s,
   * then a delimiter d that ends the region, in the input: getChar delivers
   * the bytes of s, then d, and then the tail unchanged at 8 bits.
   */
  lemma {:induction false} Base64Ahead(st: InState, s: seq<byte>, d: byte, tail: seq<byte>)
    requires ValidIn(st) && st.byteSize == 6 && st.nBits == 0 && st.nextChar != EOF && IsTerminator(6, d)
    requires st.src[st.pos..] == Base64Encode(s) + [d] + tail
    ensures Ahead(st) == [st.nextChar] + (s + [d] + tail)
    decreases |s|
  {
    if |s| == 0 {
      assert Base64Encode(s) + [d] + tail == [] + [d] + tail;
      CloseAhead(st, [], d, tail);
      assert s + [d] + tail == [d] + tail;
    } else if |s| == 1 {
      Base64AheadOne(st, s, d, tail);
    } else if |s| == 2 {
      Base64AheadTwo(st, s, d, tail);
    } else {
      var a, b, c := s[0], s[1], s[2];
      GroupText(s, d, tail);
      var st1, st2, st3 := Base64Group(st, a, b, c, Base64Encode(s[3..]) + [d] + tail);
      Base64Ahead(st3, s[3..], d, tail);
      AheadVia(st2, st3, [c] + (s[3..] + [d] + tail));
      AheadVia(st1, st2, [b] + ([c] + (s[3..] + [d] + tail)));
      AheadVia(st, st1, [a] + ([b] + ([c] + (s[3..] + [d] + tail))));
      GroupAhead(st.nextChar, s, d, tail);
    }
  }

  /**
   * Consuming the character current when the width became 6 bits (the
   * '{' of the transport form): the bytes of s, d and the tail follow.
   */
  lemma Base64Region(st: InState, o: byte, s: seq<byte>, d: byte, tail: seq<byte>) returns (st': InState)
    requires ValidIn(st) && st.byteSize == 6 && st.nBits == 0 && st.nextChar == o && IsTerminator(6, d)
    requires st.src[st.pos..] == Base64Encode(s) + [d] + tail
    ensures GetCharF(st) == Ok(st') && ValidIn(st')
    ensures Ahead(st') == s + [d] + tail
  {
    Base64Ahead(st, s, d, tail);
    Consume(st, o, s + [d] + tail);
    st' := GetCharF(st).value;
  }

  /** What follows a known first character. */
  lemma DropFirst(x: int, a: seq<int>, b: seq<int>)
    requires [x] + a == b
    ensures a == b[1..]
  {
  }

  /** At 8 bits, the character o is current and the source holds what follows it verbatim. */
  lemma OpenSource(st: InState, o: byte, u: seq<byte>)
    requires ValidIn(st) && st.byteSize == 8
    requires Ahead(st) == [o] + u
    ensures st.nextChar == o && st.src[st.pos..] == u
  {
    Current(st);
    EightBitAhead(st);
    DropFirst(o, st.src[st.pos..], [o] + u);
  }

  /** A first byte, the text, d and the tail, grouped either way. */
  lemma RegroupFirst(o: byte, text: seq<byte>, d: byte, tail: seq<byte>)
    ensures [o] + text + [d] + tail == [o] + (text + [d] + tail)
  {
  }

  /**
   * The opening of a base64 region read at 8 bits (the '{' of the transport
   * form, current when the width becomes 6 bits): consuming it leaves the
   * bytes of s ahead, then the closing delimiter d and the tail.
   */
  lemma TransportAhead(st: InState, o: byte, s: seq<byte>, d: byte, tail: seq<byte>) returns (st': InState)
    requires ValidIn(st) && st.byteSize == 8 && IsTerminator(6, d)
    requires Ahead(st) == [o] + Base64Encode(s) + [d] + tail
    ensures st.nextChar == o && ValidIn(ChangeInputByteSizeF(st, 6))
    ensures GetCharF(ChangeInputByteSizeF(st, 6)) == Ok(st') && ValidIn(st')
    ensures Ahead(st') == s + ([d] + tail)
  {
    RegroupFirst(o, Base64Encode(s), d, tail);
    OpenSource(st, o, Base64Encode(s) + [d] + tail);
    var st2 := SixBitStart(st);
    st' := Base64Region(st2, o, s, d, tail);
    RegroupLast(s, d, tail);
  }

  /** changeInputByteSize to 6 bits keeps the stream valid and the input where it was. */
  lemma SixBitStart(st: InState) returns (st2: InState)
    requires ValidIn(st)
    ensures st2 == ChangeInputByteSizeF(st, 6) && ValidIn(st2)
    ensures st2.byteSize == 6 && st2.nBits == 0 && st2.nextChar == st.nextChar && st2.src == st.src && st2.pos == st.pos
  {
    Pow2Values();
    st2 := ChangeInputByteSizeF(st, 6);
  }

  /** The bytes of s, then d and the tail, grouped either way. */
  lemma RegroupLast(s: seq<byte>, d: byte, tail: seq<byte>)
    ensures s + [d] + tail == s + ([d] + tail)
  {
  }

  /** Three bytes, then the rest of s, regrouped. */
  lemma GroupAhead(x: int, s: seq<byte>, d: byte, tail: seq<byte>)
    requires |s| >= 3
    ensures [x] + ([s[0]] + ([s[1]] + ([s[2]] + (s[3..] + [d] + tail)))) == [x] + (s + [d] + tail)
  {
    assert s == [s[0], s[1], s[2]] + s[3..];
  }

  /** The base64 form of one byte then d: the byte, then d and the tail. */
  lemma Base64AheadOne(st: InState, s: seq<byte>, d: byte, tail: seq<byte>)
    requires ValidIn(st) && st.byteSize == 6 && st.nBits == 0 && st.nextChar != EOF && IsTerminator(6, d) && |s| == 1
    requires st.src[st.pos..] == Base64Encode(s) + [d] + tail
    ensures Ahead(st) == [st.nextChar] + (s + [d] + tail)
  {
    var a := s[0];
    OneText(s, d, tail);
    var st' := Base64OneStart(st, a, d, tail);
    CloseAhead(st', [PadChar, PadChar], d, tail);
    AheadVia(st, st', [a] + ([d] + tail));
    assert [a] + ([d] + tail) == s + [d] + tail;
  }

  /** The two digits of a one-byte group deliver the byte and leave four zero bits pending. */
  lemma Base64OneStart(st: InState, a: byte, d: byte, tail: seq<byte>) returns (st': InState)
    requires ValidIn(st) && st.byteSize == 6 && st.nBits == 0 && st.nextChar != EOF
    requires st.src[st.pos..] == [Base64Digit(a / 4), Base64Digit(a % 4 * 16 + 0)] + ([PadChar, PadChar] + [d] + tail)
    ensures GetCharF(st) == Ok(st') && ValidIn(st') && st'.nextChar == a && st'.bits == 0 && st'.byteSize == 6
    ensures st'.src[st'.pos..] == [PadChar, PadChar] + [d] + tail
  {
    TakeFront(st.src, st.pos, [Base64Digit(a / 4), Base64Digit(a % 4 * 16 + 0)], [PadChar, PadChar] + [d] + tail);
    Base64First(st, a, 0);
    st' := st.(pos := st.pos + 2, nextChar := a, bits := 0, nBits := 4, count := st.count + 1);
  }

  /** The base64 form of two bytes then d: the two bytes, then d and the tail. */
  lemma Base64AheadTwo(st: InState, s: seq<byte>, d: byte, tail: seq<byte>)
    requires ValidIn(st) && st.byteSize == 6 && st.nBits == 0 && st.nextChar != EOF && IsTerminator(6, d) && |s| == 2
    requires st.src[st.pos..] == Base64Encode(s) + [d] + tail
    ensures Ahead(st) == [st.nextChar] + (s + [d] + tail)
  {
    var a, b := s[0], s[1];
    var st' := Base64TwoStart(st, s, d, tail);
    Base64SecondAhead(st', b, d, tail);
    AheadVia(st, st', [a] + ([b] + ([d] + tail)));
    assert [a] + ([b] + ([d] + tail)) == s + [d] + tail;
  }

  /** The last digit of a two-byte group, "=" and d: the current character, the second byte, d and the tail. */
  lemma Base64SecondAhead(st: InState, b: byte, d: byte, tail: seq<byte>)
    requires ValidIn(st) && st.byteSize == 6 && st.nBits == 4 && st.bits == b / 16 && st.nextChar != EOF
    requires IsTerminator(6, d) && st.src[st.pos..] == [Base64Digit(b % 16 * 4 + 0), PadChar] + [d] + tail
    ensures Ahead(st) == [st.nextChar] + ([b] + ([d] + tail))
  {
    var st2 := Base64SecondLast(st, b, d, tail);
    EndAhead(st, [Base64Digit(b % 16 * 4 + 0), PadChar], d, 1, tail);
    AheadVia(st2, RegionEnd(st, d, 1, tail), [d] + tail);
    AheadVia(st, st2, [b] + ([d] + tail));
  }

  /** The copy loop keeps the three bytes of a group and goes on with the rest. */
  lemma GroupLoop(st1: InState, st2: InState, st3: InState, st4: InState, acc: seq<byte>, s: seq<byte>, e: InState)
    requires |s| >= 3 && ValidIn(st1) && st1.byteSize == 6 && st1.nextChar == s[0]
    requires GetCharF(st1) == Ok(st2) && st2.byteSize == 6 && st2.nextChar == s[1]
    requires GetCharF(st2) == Ok(st3) && st3.byteSize == 6 && st3.nextChar == s[2]
    requires GetCharF(st3) == Ok(st4)
    requires RegionLoop(st4, acc + [s[0]] + [s[1]] + [s[2]], 6, '|') == Ok(Scanned(acc + [s[0]] + [s[1]] + [s[2]] + s[3..], e))
    ensures RegionLoop(st1, acc, 6, '|') == Ok(Scanned(acc + s, e))
  {
    LoopOn(st3, st4, acc + [s[0]] + [s[1]], 6, '|', s[2]);
    LoopOn(st2, st3, acc + [s[0]], 6, '|', s[1]);
    LoopOn(st1, st2, acc, 6, '|', s[0]);
    AppendQuantum(acc, s);
  }

  /** Past the closing delimiter of a region, the stream is 8 bits wide again and delivers the rest unchanged. */
  lemma AfterRegion(e: InState, delim: char, rest: seq<byte>)
    requires ValidIn(e) && e.byteSize == 8 && e.nextChar == delim as int && 0 <= delim as int < 256
    requires e.src[e.pos..] == rest
    ensures SkipCharF(e, delim).Ok? && SkipCharF(e, delim).value.warnings == e.warnings
    ensures ValidIn(SkipCharF(e, delim).value) && Ahead(SkipCharF(e, delim).value) == rest
  {
    EightBitAhead(e);
    EightBitGetChar(e);
    Consume(e, delim as int, rest);
  }

  /**
   * scanHexString and scanBase64String once the copy loop has collected s
   * and stopped at the delimiter: the result is s, with the stream past the
   * delimiter and a warning exactly when a declared length differs from |s|.
   */
  lemma RegionReads(st: InState, length: int, size: int, delim: char, s: seq<byte>, rest: seq<byte>, st2: InState, e: InState)
    requires ValidIn(st) && (size == 4 || size == 6) && ValidIn(ChangeInputByteSizeF(st, size))
    requires st.nextChar == delim as int && GetCharF(ChangeInputByteSizeF(st, size)) == Ok(st2)
    requires RegionLoop(st2, [], size, delim) == Ok(Scanned(s, e))
    requires ValidIn(e) && e.byteSize == 8 && e.nextChar == delim as int && 0 <= delim as int < 256
    requires e.src[e.pos..] == rest && e.warnings == st.warnings
    ensures ReadsTo(ScanRegionF(st, [], length, size, delim), s, rest)
    ensures ScanRegionF(st, [], length, size, delim).value.st.warnings == st.warnings + MismatchWarning(size == 4, |s|, length)
  {
    AfterRegion(e, delim, rest);
    var st3 := SkipCharF(e, delim).value;
    AheadIgnoresWarnings(st3, st3.(warnings := st3.warnings + MismatchWarning(size == 4, |s|, length)));
  }

  /** On an 8-bit stream the characters ahead are the current one and the unread input. */
  lemma EightBitFront(st: InState, d: byte, t: seq<byte>)
    requires ValidIn(st) && st.byteSize == 8 && Ahead(st) == [d] + t
    ensures st.nextChar == d && st.src[st.pos..] == t
  {
    Current(st);
    EightBitAhead(st);
    assert Ahead(st)[1..] == t;
    assert ([d] + st.src[st.pos..])[1..] == st.src[st.pos..];
  }

  /** The end of the input after a region's delimiters: the tail left after its encoded form. */
  lemma EndTail(st: InState, d: byte, n: nat, w: seq<byte>, rest: seq<byte>)
    requires ValidIn(st) && st.src[st.pos..] == w + [d] + rest
    ensures |rest| <= |st.src| && RegionEnd(st, d, n, rest).src[RegionEnd(st, d, n, rest).pos..] == rest
  {
    TakeFront(st.src, st.pos, w + [d], rest);
  }

  /**
   * scanHexString reads back any base16 text between '#' delimiters, on an
   * 8-bit stream: the bytes it encodes, with the stream left at what
   * follows and a warning exactly when a declared length differs.
   */
  lemma HexStringReads(st: InState, s: seq<byte>, length: int, rest: seq<byte>)
    requires ValidIn(st) && st.byteSize == 8
    requires Ahead(st) == [Hash] + HexEncode(s) + [Hash] + rest
    ensures ReadsTo(ScanHexF(st, [], length), s, rest)
    ensures ScanHexF(st, [], length).value.st.warnings == st.warnings + MismatchWarning(true, |s|, length)
  {
    FrontAssoc(Hash, HexEncode(s), Hash, rest);
    EightBitFront(st, Hash, HexEncode(s) + [Hash] + rest);
    var st1 := ChangeInputByteSizeF(st, 4);
    assert ValidIn(st1) by { Pow2Values(); }
    var st2 := HexFrom(st1, [], s, rest);
    assert [] + s == s;
    EndTail(st1, Hash, |s|, HexEncode(s), rest);
    RegionReads(st, length, 4, '#', s, rest, st2, RegionEnd(st1, Hash, |s|, rest));
  }

  /**
   * scanBase64String reads back any padded base64 text between '|'
   * delimiters, on an 8-bit stream: the bytes it encodes, with the stream
   * left at what follows and a warning exactly when a declared length differs.
   */
  lemma Base64StringReads(st: InState, s: seq<byte>, length: int, rest: seq<byte>)
    requires ValidIn(st) && st.byteSize == 8
    requires Ahead(st) == [Bar] + Base64Encode(s) + [Bar] + rest
    ensures ReadsTo(ScanBase64F(st, [], length), s, rest)
    ensures ScanBase64F(st, [], length).value.st.warnings == st.warnings + MismatchWarning(false, |s|, length)
  {
    FrontAssoc(Bar, Base64Encode(s), Bar, rest);
    EightBitFront(st, Bar, Base64Encode(s) + [Bar] + rest);
    var st1 := ChangeInputByteSizeF(st, 6);
    assert ValidIn(st1) by { Pow2Values(); }
    var st2 := Base64From(st1, [], s, rest);
    assert [] + s == s;
    EndTail(st1, Bar, |s|, Base64Encode(s), rest);
    RegionReads(st, length, 6, '|', s, rest, st2, RegionEnd(st1, Bar, |s|, rest));
  }
}
