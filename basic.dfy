/**
 * The in-memory representation of S-expressions (sexp-basic.c): growable
 * byte strings, strings with an optional presentation hint, lists, the list
 * iterator and the type tests.
 */
module SexpBasic {
  import opened SexpTypes

  /** Capacity of the buffer of a new simple string. */
  const InitialAllocation: nat := 16

  /** The capacity reallocateSimpleString chooses for a string of `length` bytes: 16 plus half again the length. */
  function GrownAllocation(length: nat): (n: nat)
    ensures n > length
  {
    16 + 3 * length / 2
  }

  /** A growable byte string (sexpSimpleString): the first `length` bytes of `str` are its contents. */
  class SimpleString {
    var length: nat
    var allocatedLength: nat
    var str: array<byte>

    ghost predicate Valid()
      reads this
    {
      str.Length == allocatedLength && length <= allocatedLength
    }

    function Contents(): seq<byte>
      reads this, str
      requires Valid()
    {
      str[..length]
    }

    /** newSimpleString: empty, with a 16-byte buffer. */
    constructor ()
      ensures Valid() && fresh(str)
      ensures length == 0 && allocatedLength == InitialAllocation
      ensures Contents() == []
    {
      length := 0;
      allocatedLength := InitialAllocation;
      str := new byte[InitialAllocation];
    }

    /**
     * reallocateSimpleString: moves the contents into a fresh buffer of
     * GrownAllocation(length) bytes and zeroes every byte of the old buffer,
     * which may hold sensitive data, before letting it go.
     */
    method Reallocate()
      requires Valid()
      modifies this, str
      ensures Valid() && fresh(str)
      ensures length == old(length) && allocatedLength == GrownAllocation(length)
      ensures Contents() == old(Contents())
      ensures forall i :: 0 <= i < old(str).Length ==> old(str)[i] == 0
    {
      var newsize := GrownAllocation(length);
      var newstring := new byte[newsize];
      var i := 0;
      while i < length
        modifies newstring
        invariant 0 <= i <= length
        invariant newstring[..i] == str[..i]
      {
        newstring[i] := str[i];
        i := i + 1;
      }
      assert newstring[..length] == old(str[..length]);
      i := 0;
      while i < allocatedLength
        modifies str
        invariant 0 <= i <= allocatedLength
        invariant forall k :: 0 <= k < i ==> str[k] == 0
        invariant newstring[..length] == old(str[..length])
      {
        str[i] := 0;
        i := i + 1;
      }
      str := newstring;
      allocatedLength := newsize;
    }

    /**
     * appendCharToSimpleString: appends the low byte of c, growing the buffer
     * first when it is full. Earlier bytes are kept.
     */
    method Append(c: int)
      requires Valid()
      modifies this, str
      ensures Valid()
      ensures Contents() == old(Contents()) + [LowByte(c)]
      ensures length == old(length) + 1
      ensures str == old(str) || fresh(str)
      ensures old(length) < old(allocatedLength) ==> str == old(str) && allocatedLength == old(allocatedLength)
      ensures old(length) == old(allocatedLength) ==>
        allocatedLength == GrownAllocation(old(length)) && forall i :: 0 <= i < old(str).Length ==> old(str)[i] == 0
    {
      if length == allocatedLength {
        Reallocate();
      }
      str[length] := LowByte(c);
      length := length + 1;
    }
  }

  /** The type tags of sexp.h. */
  const SEXP_STRING: int := 1
  const SEXP_LIST: int := 2

  /** A string object (sexpString): an optional presentation hint and a value, both simple strings. */
  class SexpString {
    const tag: int
    var presentationHint: Option<SimpleString>
    var str: Option<SimpleString>

    /** newSexpString: tagged as a string, with neither hint nor value yet. */
    constructor ()
      ensures tag == SEXP_STRING && presentationHint == None && str == None
    {
      tag := SEXP_STRING;
      presentationHint := None;
      str := None;
    }

    /** sexpStringPresentationHint */
    function PresentationHint(): Option<SimpleString>
      reads this
    {
      presentationHint
    }

    /** sexpStringString */
    function StringValue(): Option<SimpleString>
      reads this
    {
      str
    }

    /** setSexpStringPresentationHint: replaces the hint and nothing else. */
    method SetPresentationHint(ss: SimpleString)
      modifies this
      ensures PresentationHint() == Some(ss) && StringValue() == old(StringValue())
    {
      presentationHint := Some(ss);
    }

    /** setSexpStringString: replaces the value and nothing else. */
    method SetString(ss: SimpleString)
      modifies this
      ensures StringValue() == Some(ss) && PresentationHint() == old(PresentationHint())
    {
      str := Some(ss);
    }
  }

  /**
   * A list object (sexpList). The chain of cells the C code links together
   * is represented by the sequence of the elements it holds.
   */
  class SexpList {
    const tag: int
    var elems: seq<Obj>

    /** newSexpList: tagged as a list and empty (its first cell holds no object and has no successor). */
    constructor ()
      ensures tag == SEXP_LIST && elems == []
    {
      tag := SEXP_LIST;
      elems := [];
    }

    /** sexpAddSexpListObject: the object becomes the new last element. */
    method Add(o: Obj)
      modifies this
      ensures elems == old(elems) + [o]
    {
      elems := elems + [o];
    }
  }

  /**
   * A list iterator (sexpIter): NULL, or a pointer to a list cell, which is
   * represented by the elements from that cell to the end. The only cell that
   * holds no object is the first cell of an empty list.
   */
  type Iter = Option<seq<Obj>>

  /** sexpListIter: the first cell of the list. */
  function ListIter(elems: seq<Obj>): Iter {
    Some(elems)
  }

  /** sexpIterObject: the object in the current cell, NULL for a NULL iterator or an empty list. */
  function IterObject(it: Iter): Option<Obj> {
    match it
    case None => None
    case Some(s) => if |s| == 0 then None else Some(s[0])
  }

  /** sexpIterNext: the next cell, NULL after the last one and for a NULL iterator. */
  function IterNext(it: Iter): Iter {
    match it
    case None => None
    case Some(s) => if |s| <= 1 then None else Some(s[1..])
  }

  /** Number of steps a C loop `while (iter != NULL)` makes over a list: one even for an empty list. */
  function IterSteps(elems: seq<Obj>): nat {
    if |elems| == 0 then 1 else |elems|
  }

  /** The iterator after k steps from the start of `elems`. */
  function IterAt(elems: seq<Obj>, k: nat): Iter {
    if k < IterSteps(elems) then Some(elems[k..]) else None
  }

  /**
   * Iterating from sexpListIter visits the elements in insertion order: the
   * k-th step sees the k-th element, and the iterator becomes NULL exactly
   * after IterSteps steps, having shown no object beyond the elements.
   */
  lemma IterVisitsInOrder(elems: seq<Obj>, k: nat)
    requires k < IterSteps(elems)
    ensures IterAt(elems, 0) == ListIter(elems)
    ensures IterAt(elems, k) != None
    ensures IterObject(IterAt(elems, k)) == (if k < |elems| then Some(elems[k]) else None)
    ensures IterNext(IterAt(elems, k)) == IterAt(elems, k + 1)
    ensures IterAt(elems, IterSteps(elems)) == None
  {
  }

  /** The objects a C loop over the iterator hands to its body (skipping a NULL object). */
  ghost function Walk(it: Iter): seq<Obj>
    decreases if it.Some? then |it.value| + 1 else 0
  {
    match it
    case None => []
    case Some(s) =>
      (match IterObject(it) case None => [] case Some(o) => [o]) + Walk(IterNext(it))
  }

  /** Walking a list from sexpListIter yields exactly its elements, in order. */
  lemma {:induction false} WalkListIter(elems: seq<Obj>)
    ensures Walk(ListIter(elems)) == elems
    decreases |elems|
  {
    if |elems| > 1 {
      WalkListIter(elems[1..]);
    }
  }

  /** The tag stored in the object's common type field. */
  function Tag(o: Obj): int {
    if o.Str? then SEXP_STRING else SEXP_LIST
  }

  /** isObjectString: tests only the tag. */
  predicate IsObjectString(o: Obj) {
    Tag(o) == SEXP_STRING
  }

  /** isObjectList: tests only the tag. */
  predicate IsObjectList(o: Obj) {
    Tag(o) == SEXP_LIST
  }

  /** The tags tell strings and lists apart: every object passes exactly one of the two tests. */
  lemma TagTests(o: Obj)
    ensures IsObjectString(o) <==> o.Str?
    ensures IsObjectList(o) <==> o.List?
    ensures IsObjectString(o) != IsObjectList(o)
  {
  }
}
