/**
 * The round trip between the canonical printer of sexp-output.c and the
 * scanner of sexp-input.c: reading the canonical encoding of an object
 * gives the object back and leaves the stream just after it, whatever the
 * stream's current coding region delivers those bytes from. The only
 * condition is the scanner's decimal limit: every length must have at
 * most nine digits, since the tenth digit of a length prefix is fatal.
 */
module SexpRoundTrip {
  import opened SexpTypes
  import opened SexpChars
  import opened SexpInput
  import opened SexpScanSpec
  import opened SexpCanonical
  import opened SexpReading
  import opened SexpOutput
  import opened SexpEncode
  import SexpBits
  import SexpRegionRead

  /** The first length scanDecimal refuses: it has ten digits. */
  const DecimalLimit: nat := 1_000_000_000

  // ---------------------------------------------------------------------
  // Decimal length prefixes
  // ---------------------------------------------------------------------

  /** Every byte is a decimal digit. */
  predicate AllDigits(d: seq<byte>) {
    forall i :: 0 <= i < |d| ==> IsDecDigit(d[i])
  }

  /** The value scanDecimal builds from v: each digit c in turn makes it v * 10 + c. */
  function FoldDecimal(v: nat, d: seq<byte>): nat
    requires AllDigits(d)
    decreases |d|
  {
    if |d| == 0 then v else FoldDecimal(v * 10 + DecValue(d[0]), d[1..])
  }

  /** One more digit at the end multiplies the value by ten and adds the digit. */
  lemma {:induction false} FoldDecimalLast(v: nat, d: seq<byte>, c: byte)
    requires AllDigits(d) && IsDecDigit(c)
    ensures AllDigits(d + [c]) && FoldDecimal(v, d + [c]) == FoldDecimal(v, d) * 10 + DecValue(c)
    decreases |d|
  {
    if |d| > 0 {
      assert (d + [c])[1..] == d[1..] + [c];
      FoldDecimalLast(v * 10 + DecValue(d[0]), d[1..], c);
    }
  }

  /** Reading back the digits printDecimal writes for n gives n. */
  lemma {:induction false} DecimalDigitsValue(n: nat)
    ensures FoldDecimal(0, DecimalDigits(n)) == n
  {
    if n >= 10 {
      DecimalDigitsValue(n / 10);
      FoldDecimalLast(0, DecimalDigits(n / 10), DecDigit(n % 10));
    }
  }

  /** 10 to the power k. */
  function Pow10(k: nat): (p: nat)
    ensures p >= 1
  {
    if k == 0 then 1 else 10 * Pow10(k - 1)
  }

  /** A number below 10^k has at most k digits, and one of at least 10^k has more than k. */
  lemma {:induction false} DecimalDigitsCount(n: nat, k: nat)
    requires k >= 1
    ensures n < Pow10(k) <==> |DecimalDigits(n)| <= k
  {
    if n >= 10 {
      if k == 1 {
        DecimalDigitsAtLeastTwo(n);
      } else {
        DecimalDigitsCount(n / 10, k - 1);
      }
    }
  }

  /** Numbers from 10 on have at least two digits. */
  lemma DecimalDigitsAtLeastTwo(n: nat)
    requires n >= 10
    ensures |DecimalDigits(n)| >= 2
  {
    assert DecimalDigits(n) == DecimalDigits(n / 10) + [DecDigit(n % 10)];
  }

  /** The limit is 10^9: lengths below it have at most nine digits, the others at least ten. */
  lemma LimitDigits(n: nat)
    ensures n < DecimalLimit <==> |DecimalDigits(n)| <= 9
  {
    assert Pow10(9) == DecimalLimit;
    DecimalDigitsCount(n, 9);
  }

  /**
   * The loop of scanDecimal over at most nine digits in all, followed by a
   * non-digit: it folds the digits into the value and stops at the non-digit.
   */
  lemma {:induction false} DecimalLoopReads(st: InState, v: nat, i: nat, d: seq<byte>, rest: seq<byte>)
    requires ValidIn(st) && Ahead(st) == d + rest
    requires AllDigits(d) && i + |d| <= 9
    requires |rest| == 0 || !IsDecDigit(rest[0])
    ensures ReadsTo(ScanDecimalLoop(st, v, i), FoldDecimal(v, d), rest)
    decreases |d|
  {
    Current(st);
    if |d| > 0 {
      SplitFirst(d, rest);
      Consume(st, d[0], d[1..] + rest);
      var st' := GetCharF(st).value;
      DecimalLoopReads(st', v * 10 + DecValue(d[0]), i + 1, d[1..], rest);
    }
  }

  /** Ten digits in a row are fatal, whatever their value and whatever follows them. */
  lemma {:induction false} DecimalLoopTenth(st: InState, v: nat, i: nat, d: seq<byte>, rest: seq<byte>)
    requires ValidIn(st) && Ahead(st) == d + rest
    requires AllDigits(d) && i <= 9 && i + |d| >= 10
    ensures ScanDecimalLoop(st, v, i).Err? && ScanDecimalLoop(st, v, i).error.DecimalTooLong?
    decreases |d|
  {
    SplitFirst(d, rest);
    Consume(st, d[0], d[1..] + rest);
    if i < 9 {
      var st' := GetCharF(st).value;
      DecimalLoopTenth(st', v * 10 + DecValue(d[0]), i + 1, d[1..], rest);
    }
  }

  /** scanDecimal refuses any length prefix of ten or more digits. */
  lemma TenthDigitFatal(st: InState, d: seq<byte>, rest: seq<byte>)
    requires ValidIn(st) && Ahead(st) == d + rest && AllDigits(d) && |d| >= 10
    ensures ScanDecimalF(st).Err? && ScanDecimalF(st).error.DecimalTooLong?
  {
    DecimalLoopTenth(st, 0, 0, d, rest);
  }

  // ---------------------------------------------------------------------
  // Verbatim strings and strings with hints
  // ---------------------------------------------------------------------

  /** The copy loop of scanVerbatimString takes exactly the next length - i bytes, whatever they are. */
  lemma {:induction false} VerbatimLoopReads(st: InState, acc: seq<byte>, i: int, length: int, s: seq<byte>, rest: seq<byte>)
    requires ValidIn(st) && Ahead(st) == s + rest && length - i == |s|
    ensures ReadsTo(VerbatimLoop(st, acc, i, length), acc + s, rest)
    decreases |s|
  {
    if |s| > 0 {
      SplitFirst(s, rest);
      Consume(st, s[0], s[1..] + rest);
      var st' := GetCharF(st).value;
      VerbatimLoopReads(st', acc + [s[0]], i + 1, length, s[1..], rest);
      assert acc + [s[0]] + s[1..] == acc + s;
    } else {
      assert acc + s == acc;
    }
  }

  /** The digits of a length followed by what comes after them. */
  lemma DigitsThen(s: seq<byte>, rest: seq<byte>)
    ensures Verbatim(s) + rest == DecimalDigits(|s|) + ([Colon] + s + rest)
    ensures |Verbatim(s) + rest| > 0 && IsDecDigit((Verbatim(s) + rest)[0])
  {
  }

  /** scanVerbatimString at a ':' skips it and starts copying after it. */
  lemma VerbatimColon(st: InState, length: nat)
    requires ValidIn(st) && st.nextChar == Colon && GetCharF(st).Ok?
    ensures ScanVerbatimF(st, [], length) == VerbatimLoop(GetCharF(st).value, [], 0, length)
  {
    assert SkipWhiteSpaceF(st) == Ok(st);
    assert SkipCharF(st, ':') == Ok(GetCharF(st).value);
  }

  /** scanVerbatimString, at the ':' of a verbatim string of the declared length, copies it. */
  lemma VerbatimBodyReads(st: InState, s: seq<byte>, rest: seq<byte>)
    requires ValidIn(st) && Ahead(st) == [Colon] + s + rest
    ensures ReadsTo(ScanVerbatimF(st, [], |s|), s, rest)
  {
    PrefixAssoc(Colon, s, rest);
    Consume(st, Colon, s + rest);
    var st1 := GetCharF(st).value;
    VerbatimColon(st, |s|);
    VerbatimLoopReads(st1, [], 0, |s|, s, rest);
    assert [] + s == s;
  }

  /** The length-and-body branch of scanSimpleString reads a verbatim string back. */
  lemma LengthAndBodyReads(st: InState, s: seq<byte>, rest: seq<byte>)
    requires ValidIn(st) && Ahead(st) == Verbatim(s) + rest && |s| < DecimalLimit
    ensures IsDecDigit(st.nextChar)
    ensures ReadsTo(ScanLengthAndBodyF(st), s, rest)
  {
    var d := DecimalDigits(|s|);
    LimitDigits(|s|);
    DecimalDigitsValue(|s|);
    DigitsThen(s, rest);
    Current(st);
    DecimalLoopReads(st, 0, 0, d, [Colon] + s + rest);
    var st2 := ScanDecimalF(st).value.st;
    Current(st2);
    VerbatimBodyReads(st2, s, rest);
    assert ScanDecimalF(st).value.v == |s|;
    VerbatimBranch(st);
  }

  /** A length followed by ':' starts a verbatim string of that length. */
  lemma VerbatimBranch(st: InState)
    requires ValidIn(st) && IsDecDigit(st.nextChar) && ScanDecimalF(st).Ok?
    requires ScanDecimalF(st).value.st.nextChar == ':' as int
    ensures ScanLengthAndBodyF(st) == ScanVerbatimF(ScanDecimalF(st).value.st, [], ScanDecimalF(st).value.v)
  {
  }

  /** A digit starts the length-and-body branch of scanSimpleString. */
  lemma DigitBranch(st: InState)
    requires ValidIn(st) && IsDecDigit(st.nextChar) && ScanLengthAndBodyF(st).Ok?
    ensures ScanSimpleStringF(st) == Ok(NoteEmpty(ScanLengthAndBodyF(st).value))
  {
  }

  /** scanSimpleString reads a verbatim string back: its length, ':' and exactly its bytes. */
  lemma VerbatimReads(st: InState, s: seq<byte>, rest: seq<byte>)
    requires ValidIn(st) && Ahead(st) == Verbatim(s) + rest && |s| < DecimalLimit
    ensures ReadsTo(ScanSimpleStringF(st), s, rest)
  {
    LengthAndBodyReads(st, s, rest);
    DigitBranch(st);
    NoteEmptyReads(ScanLengthAndBodyF(st).value);
  }

  /** scanString's hint reader reads a bracketed verbatim hint back, when no white space follows it. */
  lemma HintReads(st: InState, h: seq<byte>, rest: seq<byte>)
    requires ValidIn(st) && Ahead(st) == [OpenBracket] + Verbatim(h) + [CloseBracket] + rest && |h| < DecimalLimit
    requires |rest| == 0 || !IsWhiteSpace(rest[0])
    ensures ReadsTo(ScanHintF(st), h, rest)
  {
    BracketSplit(Verbatim(h), rest);
    Consume(st, OpenBracket, Verbatim(h) + ([CloseBracket] + rest));
    var st1 := GetCharF(st).value;
    VerbatimReads(st1, h, [CloseBracket] + rest);
    var st2 := ScanSimpleStringF(st1).value.st;
    Consume(st2, CloseBracket, rest);
    var st3 := GetCharF(st2).value;
    Current(st3);
  }

  /** The bytes of a bracketed hint and what follows, regrouped. */
  lemma BracketSplit(a: seq<byte>, rest: seq<byte>)
    ensures [OpenBracket] + a + [CloseBracket] + rest == [OpenBracket] + (a + ([CloseBracket] + rest))
  {
  }

  // ---------------------------------------------------------------------
  // Objects
  // ---------------------------------------------------------------------

  /** Every hint and value of the object is shorter than the decimal limit. */
  predicate LengthsBelowLimit(o: Obj)
    decreases o
  {
    match o
    case Str(hint, v) => (hint.Some? ==> |hint.value| < DecimalLimit) && |v| < DecimalLimit
    case List(es) => forall i :: 0 <= i < |es| ==> LengthsBelowLimit(es[i])
  }

  /** The canonical encoding of an object starts with '(', '[' or a digit, never with white space. */
  lemma CanonHead(o: Obj)
    ensures |Canon(o)| > 0
    ensures Canon(o)[0] == OpenParen || Canon(o)[0] == OpenBracket || IsDecDigit(Canon(o)[0])
  {
  }

  /** The encodings of the elements of a nonempty list are that of the first, then those of the others. */
  lemma {:induction false} CanonListFirst(es: seq<Obj>)
    requires |es| > 0
    ensures CanonList(es) == Canon(es[0]) + CanonList(es[1..])
    decreases |es|
  {
    var n := |es|;
    if n > 1 {
      CanonListFirst(es[..n - 1]);
      assert es[..n - 1][0] == es[0];
      assert es[..n - 1][1..] == es[1..][..n - 2];
      assert es[1..][n - 2] == es[n - 1];
      assert CanonList(es[1..]) == CanonList(es[1..][..n - 2]) + Canon(es[n - 1]);
    } else {
      assert es[..0] == [] && es[1..] == [];
    }
  }

  /** What follows the element encodings of a list starts with ')' or with the next element, never with white space. */
  lemma ElementsHead(es: seq<Obj>, rest: seq<byte>)
    ensures var t := CanonList(es) + [CloseParen] + rest;
      |t| > 0 && !IsWhiteSpace(t[0]) && (t[0] == CloseParen <==> |es| == 0)
  {
    if |es| > 0 {
      CanonListFirst(es);
      CanonHead(es[0]);
    }
  }

  /** The bytes from element encodings onwards split after the first element. */
  lemma ElementsSplit(es: seq<Obj>, rest: seq<byte>)
    requires |es| > 0
    ensures CanonList(es) + [CloseParen] + rest == Canon(es[0]) + (CanonList(es[1..]) + [CloseParen] + rest)
  {
    CanonListFirst(es);
  }

  /** scanString reads a string with a hint back: the bracketed hint, then the value. */
  lemma HintedStringReads(st: InState, h: seq<byte>, v: seq<byte>, rest: seq<byte>)
    requires ValidIn(st) && Ahead(st) == [OpenBracket] + Verbatim(h) + [CloseBracket] + (Verbatim(v) + rest)
    requires |h| < DecimalLimit && |v| < DecimalLimit
    ensures ReadsTo(ScanStringF(st), Str(Some(h), v), rest)
  {
    Current(st);
    DigitsThen(v, rest);
    HintReads(st, h, Verbatim(v) + rest);
    var st2 := ScanHintF(st).value.st;
    VerbatimReads(st2, v, rest);
  }

  /** scanString reads a string without a hint back. */
  lemma PlainStringReads(st: InState, v: seq<byte>, rest: seq<byte>)
    requires ValidIn(st) && Ahead(st) == Verbatim(v) + rest && |v| < DecimalLimit
    ensures ReadsTo(ScanStringF(st), Str(None, v), rest)
  {
    DigitsThen(v, rest);
    Current(st);
    VerbatimReads(st, v, rest);
  }

  /** scanString reads a string back from its canonical encoding. */
  lemma StringReads(st: InState, o: Obj, rest: seq<byte>)
    requires o.Str? && LengthsBelowLimit(o)
    requires ValidIn(st) && Ahead(st) == Canon(o) + rest
    ensures ReadsTo(ScanStringF(st), o, rest)
  {
    StringShape(o, rest);
    if o.hint.Some? {
      HintedStringReads(st, o.hint.value, o.val, rest);
    } else {
      PlainStringReads(st, o.val, rest);
    }
  }

  /** The canonical encoding of a string, with or without a hint, and what follows it. */
  lemma StringShape(o: Obj, rest: seq<byte>)
    requires o.Str?
    ensures o.hint.Some? ==>
      Canon(o) + rest == [OpenBracket] + Verbatim(o.hint.value) + [CloseBracket] + (Verbatim(o.val) + rest)
    ensures o.hint.None? ==> Canon(o) + rest == Verbatim(o.val) + rest
  {
  }

  /** scanObject reads an object back from its canonical encoding, whatever follows it. */
  lemma ObjectReads(st: InState, o: Obj, rest: seq<byte>)
    requires LengthsBelowLimit(o)
    requires ValidIn(st) && Ahead(st) == Canon(o) + rest
    ensures ReadsTo(ScanObjectF(st), o, rest)
    decreases o, 3
  {
    CanonHead(o);
    Current(st);
    match o
    case Str(_, _) =>
      StringReads(st, o, rest);
    case List(es) =>
      ListReads(st, es, rest);
  }

  /** scanList reads a list back: '(' and the elements in order up to ')'; `()` is the empty list. */
  lemma ListReads(st: InState, es: seq<Obj>, rest: seq<byte>)
    requires forall i :: 0 <= i < |es| ==> LengthsBelowLimit(es[i])
    requires ValidIn(st) && Ahead(st) == [OpenParen] + CanonList(es) + [CloseParen] + rest
    ensures ReadsTo(ScanListF(st), List(es), rest)
    decreases es, 2
  {
    var t := CanonList(es) + [CloseParen] + rest;
    FrontAssoc(OpenParen, CanonList(es), CloseParen, rest);
    Consume(st, OpenParen, t);
    var st1 := GetCharF(st).value;
    ElementsHead(es, rest);
    Current(st1);
    assert SkipCharF(st, '(') == Ok(st1);
    assert SkipWhiteSpaceF(st1) == Ok(st1);
    assert ScanListF(st) == ListFirstF(st1);
    FirstElementReads(st1, es, rest);
  }

  /** The first element of scanList, read before its loop, and then the others. */
  lemma FirstElementReads(st: InState, es: seq<Obj>, rest: seq<byte>)
    requires forall i :: 0 <= i < |es| ==> LengthsBelowLimit(es[i])
    requires ValidIn(st) && Ahead(st) == CanonList(es) + [CloseParen] + rest
    ensures ReadsTo(ListFirstF(st), List(es), rest)
    decreases es, 1
  {
    ElementsHead(es, rest);
    Current(st);
    if |es| == 0 {
      assert ListFirstF(st) == ListLoop(st, []);
      ElementsReads(st, [], es, rest);
      assert [] + es == es;
    } else {
      ElementsSplit(es, rest);
      var t := CanonList(es[1..]) + [CloseParen] + rest;
      ObjectReads(st, es[0], t);
      var st1 := ScanObjectF(st).value.st;
      FirstBranch(st);
      ElementsReads(st1, [es[0]], es[1..], rest);
      assert [es[0]] + es[1..] == es;
    }
  }

  /** The element loop at the ')' ends the list and consumes it. */
  lemma ElementsEnd(st: InState, elems: seq<Obj>, rest: seq<byte>)
    requires ValidIn(st) && Ahead(st) == [CloseParen] + rest
    ensures ReadsTo(ListLoop(st, elems), List(elems), rest)
  {
    Consume(st, CloseParen, rest);
    CloseBranch(st, elems);
  }

  /** The element loop of scanList appends the remaining elements in order and consumes the ')'. */
  lemma ElementsReads(st: InState, elems: seq<Obj>, es: seq<Obj>, rest: seq<byte>)
    requires forall i :: 0 <= i < |es| ==> LengthsBelowLimit(es[i])
    requires ValidIn(st) && Ahead(st) == CanonList(es) + [CloseParen] + rest
    ensures ReadsTo(ListLoop(st, elems), List(elems + es), rest)
    decreases es, 0
  {
    if |es| == 0 {
      assert es == [];
      NoElements(rest);
      ElementsEnd(st, elems, rest);
      assert elems + es == elems;
    } else {
      ElementsHead(es, rest);
      Current(st);
      ElementsSplit(es, rest);
      var t := CanonList(es[1..]) + [CloseParen] + rest;
      ObjectReads(st, es[0], t);
      var st1 := ScanObjectF(st).value.st;
      assert ScanObjectF(st) == Ok(Scanned(es[0], st1));
      ElementBranch(st, elems, es[0], st1);
      var elems1, es1 := elems + [es[0]], es[1..];
      assert elems1 + es1 == elems + es;
      assert forall i :: 0 <= i < |es1| ==> LengthsBelowLimit(es1[i]) by {
        forall i | 0 <= i < |es1| ensures LengthsBelowLimit(es1[i]) {
          assert es1[i] == es[i + 1];
        }
      }
      ElementsReads(st1, elems1, es1, rest);
    }
  }

  /** Anything but ')' at the start of a list is its first element. */
  lemma FirstBranch(st: InState)
    requires ValidIn(st) && st.nextChar != ')' as int && ScanObjectF(st).Ok?
    ensures ListFirstF(st) == ListLoop(ScanObjectF(st).value.st, [ScanObjectF(st).value.v])
  {
  }

  /** With no elements left, only the ')' and what follows it remain. */
  lemma NoElements(rest: seq<byte>)
    ensures CanonList([]) + [CloseParen] + rest == [CloseParen] + rest
  {
  }

  /** The element loop at ')' ends the list. */
  lemma CloseBranch(st: InState, elems: seq<Obj>)
    requires ValidIn(st) && st.nextChar == ')' as int && GetCharF(st).Ok?
    ensures ListLoop(st, elems) == Ok(Scanned(List(elems), GetCharF(st).value))
  {
    assert SkipWhiteSpaceF(st) == Ok(st);
  }

  /** The element loop at anything else but white space reads one more element. */
  lemma ElementBranch(st: InState, elems: seq<Obj>, v: Obj, st1: InState)
    requires ValidIn(st) && !IsWhiteSpace(st.nextChar) && st.nextChar != ')' as int
    requires ScanObjectF(st) == Ok(Scanned(v, st1))
    ensures ListLoop(st, elems) == ListLoop(st1, elems + [v])
  {
    assert SkipWhiteSpaceF(st) == Ok(st);
  }

  /**
   * The canonical round trip: a fresh input stream holding the canonical
   * encoding of o, after the first getChar, scans back to o and is then at
   * the end of its input.
   */
  lemma CanonicalRoundTrip(o: Obj)
    requires LengthsBelowLimit(o)
    ensures GetCharF(NewInState(Canon(o))).Ok?
    ensures var r := ScanObjectF(GetCharF(NewInState(Canon(o))).value);
      r.Ok? && r.value.v == o && r.value.st.nextChar == EOF
  {
    var st0 := NewInState(Canon(o));
    FreshAhead(Canon(o));
    Consume(st0, Blank, Canon(o));
    var st1 := GetCharF(st0).value;
    ObjectReads(st1, o, []);
    Current(ScanObjectF(st1).value.st);
  }

  // ---------------------------------------------------------------------
  // The transport form {...}
  // ---------------------------------------------------------------------

  /** scanObject at a '{': switch to 6 bits, consume the '{', scan an object, consume the '}'. */
  lemma BraceBranch(st: InState, st3: InState, r: Scanned<Obj>, st4: InState)
    requires ValidIn(st) && st.nextChar == OpenBrace && ValidIn(ChangeInputByteSizeF(st, 6))
    requires GetCharF(ChangeInputByteSizeF(st, 6)) == Ok(st3) && ValidIn(st3)
    requires ScanObjectF(st3) == Ok(r) && ValidIn(r.st) && r.st.nextChar == CloseBrace && GetCharF(r.st) == Ok(st4)
    ensures ScanObjectF(st) == Ok(Scanned(r.v, st4))
  {
    assert SkipWhiteSpaceF(st) == Ok(st);
  }

  /**
   * scanObject reads an object back from its transport form: '{', the
   * base64 encoding of its canonical encoding, and '}'. The width switches
   * to 6 bits before the '{' is consumed, so everything after it is
   * decoded; the '}' ends the region and closes the object.
   */
  lemma BraceObjectReads(st: InState, o: Obj, rest: seq<byte>)
    requires LengthsBelowLimit(o)
    requires ValidIn(st) && st.byteSize == 8
    requires Ahead(st) == [OpenBrace] + Base64Encode(Canon(o)) + [CloseBrace] + rest
    ensures ReadsTo(ScanObjectF(st), o, rest)
  {
    var st3 := SexpRegionRead.TransportAhead(st, OpenBrace, Canon(o), CloseBrace, rest);
    ObjectReads(st3, o, [CloseBrace] + rest);
    var r := ScanObjectF(st3).value;
    Consume(r.st, CloseBrace, rest);
    BraceBranch(st, st3, r, GetCharF(r.st).value);
  }

  /**
   * The transport round trip: with no maximum column, whatever
   * base64PrintWholeObject appends for o, a fresh input stream holding that
   * text, after the first getChar, scans back to o and is then at the end
   * of its input.
   */
  lemma TransportRoundTrip(os: OutState, o: Obj, w: seq<byte>)
    requires LengthsBelowLimit(o)
    requires ValidOut(os) && os.maxcolumn <= 0 && Base64WholeF(os, o).out == os.out + w
    ensures GetCharF(NewInState(w)).Ok?
    ensures var r := ScanObjectF(GetCharF(NewInState(w)).value);
      r.Ok? && r.value.v == o && r.value.st.nextChar == EOF
  {
    Base64WholeQuiet(os, o);
    assert w == (os.out + w)[|os.out|..];
    assert w == [OpenBrace] + Base64Encode(Canon(o)) + [CloseBrace] + [];
    var st0 := NewInState(w);
    FreshAhead(w);
    Consume(st0, Blank, w);
    EightBitGetChar(st0);
    var st1 := GetCharF(st0).value;
    BraceObjectReads(st1, o, []);
    Current(ScanObjectF(st1).value.st);
  }
}
