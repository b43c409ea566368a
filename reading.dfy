/**
 * Reasoning about what the scanner reads, in terms of the characters the
 * input stream has still to deliver (Ahead): what one getChar consumes,
 * and the facts shared by the proofs about the scanning routines.
 */
module SexpReading {
  import opened SexpTypes
  import opened SexpChars
  import opened SexpInput
  import opened SexpScanSpec

  /** A scan that succeeds with value v and leaves the stream with the bytes `rest` still to deliver. */
  ghost predicate ReadsTo<T>(r: Result<Scanned<T>>, v: T, rest: seq<byte>) {
    r.Ok? && r.value.v == v && ValidIn(r.value.st) && Ahead(r.value.st) == rest
  }

  /** The current character is the first one ahead, or EOF when none is left. */
  lemma Current(st: InState)
    requires ValidIn(st)
    ensures st.nextChar == (if |Ahead(st)| == 0 then EOF else Ahead(st)[0])
  {
  }

  /**
   * Consuming a known first byte c, when the characters after it are bytes:
   * getChar succeeds and leaves exactly those characters ahead.
   */
  lemma Consume(st: InState, c: byte, t: seq<byte>)
    requires ValidIn(st) && Ahead(st) == [c] + t
    ensures st.nextChar == c && GetCharF(st).Ok? && ValidIn(GetCharF(st).value)
    ensures Ahead(GetCharF(st).value) == t
  {
    AheadStep(st);
    var a := Ahead(st);
    assert a[0] == c && a[1..] == t;
    assert |t| > 0 ==> t[0] != FAIL;
  }

  /** The characters ahead of a stream not at EOF: the current one and those after the next getChar, or a failure. */
  lemma AheadStep(st: InState)
    requires ValidIn(st) && st.nextChar != EOF
    ensures GetCharF(st).Err? ==> Ahead(st) == [st.nextChar, FAIL]
    ensures GetCharF(st).Ok? ==> Ahead(st) == [st.nextChar] + Ahead(GetCharF(st).value)
  {
  }

  /** A nonempty sequence followed by more is its first element followed by the rest. */
  lemma SplitFirst(a: seq<byte>, b: seq<byte>)
    requires |a| > 0
    ensures a + b == [a[0]] + (a[1..] + b)
  {
  }

  /** A byte in front of two parts. */
  lemma PrefixAssoc(x: byte, a: seq<byte>, r: seq<byte>)
    ensures [x] + a + r == [x] + (a + r)
  {
  }

  /** A byte in front of a sequence of three parts. */
  lemma FrontAssoc(x: byte, a: seq<byte>, y: byte, r: seq<byte>)
    ensures [x] + a + [y] + r == [x] + (a + [y] + r)
  {
  }

  /** A fresh stream delivers the pretended blank and then its whole input. */
  lemma FreshAhead(src: seq<byte>)
    ensures Ahead(NewInState(src)) == [Blank] + src
  {
    var st := NewInState(src);
    EightBitAhead(st);
    assert st.src[st.pos..] == src;
  }

  /** The zero-length warning changes nothing that is read. */
  lemma NoteEmptyReads(s: Scanned<seq<byte>>)
    requires ValidIn(s.st)
    ensures NoteEmpty(s).v == s.v && ValidIn(NoteEmpty(s).st) && Ahead(NoteEmpty(s).st) == Ahead(s.st)
  {
    AheadIgnoresWarnings(s.st, NoteEmpty(s).st);
  }
}
