/** `TLVWriter`: what an element's bytes are, and the writer that appends them. */
module TlvWriter {
  import opened Wrappers
  import opened TlvFormat

  datatype Container = Structure | Array | Path

  function TypeOf(c: Container): Byte {
    match c
    case Structure => STRUCTURE
    case Array => ARRAY
    case Path => PATH
  }

  /** _encodeControlAndTag: the element type or'ed with the width code and the tag control. */
  function ControlAndTag(stack: seq<Container>, elementType: Byte, tag: Tag, width: nat): (r: Result<seq<Byte>, Error>)
    requires elementType <= END_OF_CONTAINER
  {
    var control := BitOr(elementType, if width == 2 then 1 else if width == 4 then 2 else if width == 8 then 3 else 0);
    ControlBits(elementType, width);
    match tag
    case Anonymous =>
      if elementType != END_OF_CONTAINER && stack != [] && stack[0] == Structure then Failure(AnonymousTagInStructure)
      else Success([control])
    case Context(n) =>
      if n < 0 || n > 0xFF then Failure(TagOutOfRange)
      else if stack == [] then Failure(ContextTagAtTopLevel)
      else if stack[0] == Array then Failure(ContextTagInArray)
      else Success([BitOr(control, TAG_CONTEXT), n])
    case Profile(_, _) => Failure(InvalidTag)
  }

  /** The bit-or's above stay below 0x20 (type and width) and 0x40 (with the tag control). */
  lemma {:induction false} ControlBits(elementType: Byte, width: nat)
    requires elementType <= END_OF_CONTAINER
    ensures forall code | 0 <= code < 4 ::
      BitOr(elementType, code) < 0x20 && BitOr(BitOr(elementType, code), TAG_CONTEXT) == BitOr(elementType, code) + 0x20
  {
    forall code | 0 <= code < 4
      ensures BitOr(elementType, code) < 0x20
      ensures BitOr(BitOr(elementType, code), TAG_CONTEXT) == BitOr(elementType, code) + 0x20
    {
      OrSmall(elementType, code, 5);
      OrBit5(BitOr(elementType, code));
    }
  }

  function Pow2(k: nat): int {
    if k == 0 then 1 else 2 * Pow2(k - 1)
  }

  lemma {:induction false} OrSmall(a: nat, b: nat, k: nat)
    requires a < Pow2(k) && b < Pow2(k)
    ensures BitOr(a, b) < Pow2(k)
  {
    if k > 0 {
      OrSmall(a / 2, b / 2, k - 1);
    }
  }

  lemma {:induction false} OrBit5(a: nat)
    requires a < 0x20
    ensures BitOr(a, 0x20) == a + 0x20
  {
    OrZero(a / 32);
    var b := a / 2;
    var c := b / 2;
    var d := c / 2;
    var e := d / 2;
    assert BitOr(e, 2) == e + 2;
    assert BitOr(d, 4) == d + 4;
    assert BitOr(c, 8) == c + 8;
    assert BitOr(b, 16) == b + 16;
  }

  lemma {:induction false} OrZero(a: nat)
    ensures BitOr(a, 0) == a
  {
    if a > 0 {
      OrZero(a / 2);
    }
  }

  type Encoding = Result<seq<Byte>, Error>

  /** _encodeUnsignedInt */
  function PackUnsigned(n: int): (r: Encoding) {
    if n < 0 || n > UINT64_MAX then Failure(IntegerOutOfRange) else Success(LittleEndian(n, UnsignedWidth(n)))
  }

  function EncodeUnsigned(stack: seq<Container>, tag: Tag, n: int): Encoding {
    var payload :- PackUnsigned(n);
    var control :- ControlAndTag(stack, UNSIGNED_INTEGER, tag, |payload|);
    Success(control + payload)
  }

  function EncodeSigned(stack: seq<Container>, tag: Tag, n: int): Encoding {
    if !FitsInt64(n) then Failure(IntegerOutOfRange)
    else
      SignedWidthFits(n);
      var payload := PackSigned(n, SignedWidth(n));
      var control :- ControlAndTag(stack, SIGNED_INTEGER, tag, |payload|);
      Success(control + payload)
  }

  lemma {:induction false} SignedWidthFits(n: int)
    requires FitsInt64(n)
    ensures -Pow256(SignedWidth(n)) <= 2 * n < Pow256(SignedWidth(n))
  {
    Widths();
  }

  /** putString and putBytes: length, then content. */
  function EncodeString(stack: seq<Container>, elementType: Byte, tag: Tag, content: seq<Byte>): Encoding
    requires elementType <= END_OF_CONTAINER
  {
    var length :- PackUnsigned(|content|);
    var control :- ControlAndTag(stack, elementType, tag, |length|);
    Success(control + length + content)
  }

  function EncodeFloat(stack: seq<Container>, tag: Tag, payload: seq<Byte>): Encoding {
    var control :- ControlAndTag(stack, FLOATING_POINT, tag, |payload|);
    Success(control + payload)
  }

  /** The bytes `put(tag, v)` appends while `stack` is the container stack. */
  function Encode(stack: seq<Container>, tag: Tag, v: Value): Encoding
    decreases Size(v), 1
  {
    match v
    case Null => ControlAndTag(stack, NULL, tag, 0)
    case EnumMember(n) => EncodeUnsigned(stack, tag, n)
    case Bool(b) => ControlAndTag(stack, if b then BOOLEAN + 1 else BOOLEAN, tag, 0)
    case UInt(n) => EncodeUnsigned(stack, tag, n)
    case Int(n) => EncodeSigned(stack, tag, n)
    case Float32(f) => EncodeFloat(stack, tag, f)
    case Float64(d) => EncodeFloat(stack, tag, d)
    case Text(utf8) => EncodeString(stack, UTF8_STRING, tag, utf8)
    case Bytes(content) => EncodeString(stack, BYTE_STRING, tag, content)
    case Dict(es) =>
      SortedSize(es);
      EncodeContainer(stack, tag, Structure, Sorted(es))
    case Mapping(es) => EncodeContainer(stack, tag, Structure, es)
    case TlvList(es) => EncodeContainer(stack, tag, Path, es)
    case Sequence(vs) =>
      var control :- ControlAndTag(stack, ARRAY, tag, 0);
      var body :- EncodeElems([Array] + stack, vs);
      Success(control + body + [END_OF_CONTAINER])
  }

  function EncodeContainer(stack: seq<Container>, tag: Tag, c: Container, es: seq<Entry>): Encoding
    decreases EntriesSize(es), 1
  {
    var control :- ControlAndTag(stack, TypeOf(c), tag, 0);
    var body :- EncodeEntries([c] + stack, es);
    Success(control + body + [END_OF_CONTAINER])
  }

  function EncodeEntries(stack: seq<Container>, es: seq<Entry>): Encoding
    decreases EntriesSize(es), 0
  {
    if es == [] then Success([])
    else
      var first :- Encode(stack, es[0].tag, es[0].value);
      var rest :- EncodeEntries(stack, es[1..]);
      Success(first + rest)
  }

  function EncodeElems(stack: seq<Container>, vs: seq<Value>): Encoding
    decreases ElemsSize(vs), 0
  {
    if vs == [] then Success([])
    else
      var first :- Encode(stack, Anonymous, vs[0]);
      var rest :- EncodeElems(stack, vs[1..]);
      Success(first + rest)
  }

  /** What is left to write, put after what has been written. */
  function After(done: seq<Byte>, rest: Encoding): Encoding {
    match rest
    case Success(bs) => Success(done + bs)
    case Failure(e) => Failure(e)
  }

  lemma {:induction false} AfterAppend(done: seq<Byte>, first: seq<Byte>, rest: Encoding)
    ensures After(done + first, rest) == After(done, if rest.Success? then Success(first + rest.value) else rest)
  {
    if rest.Success? {
      assert done + first + rest.value == done + (first + rest.value);
    }
  }

  /** What comes of writing one more entry: the first of those left, or its error. */
  lemma {:induction false} EntriesLeft(stack: seq<Container>, es: seq<Entry>, i: nat, done: seq<Byte>)
    requires i < |es|
    ensures After(done, EncodeEntries(stack, es[i..])) ==
      match Encode(stack, es[i].tag, es[i].value)
      case Success(first) => After(done + first, EncodeEntries(stack, es[i + 1..]))
      case Failure(e) => Failure(e)
  {
    assert es[i..][0] == es[i] && es[i..][1..] == es[i + 1..];
    var first := Encode(stack, es[i].tag, es[i].value);
    if first.Success? {
      AfterAppend(done, first.value, EncodeEntries(stack, es[i + 1..]));
    }
  }

  lemma {:induction false} ElemsLeft(stack: seq<Container>, vs: seq<Value>, i: nat, done: seq<Byte>)
    requires i < |vs|
    ensures After(done, EncodeElems(stack, vs[i..])) ==
      match Encode(stack, Anonymous, vs[i])
      case Success(first) => After(done + first, EncodeElems(stack, vs[i + 1..]))
      case Failure(e) => Failure(e)
  {
    assert vs[i..][0] == vs[i] && vs[i..][1..] == vs[i + 1..];
    var first := Encode(stack, Anonymous, vs[i]);
    if first.Success? {
      AfterAppend(done, first.value, EncodeElems(stack, vs[i + 1..]));
    }
  }

  /** `spec` was appended, or `spec`'s error was raised with what came before it already written. */
  predicate Wrote(before: seq<Byte>, now: seq<Byte>, spec: Encoding, r: Outcome<Error>) {
    match spec
    case Success(bs) => r.Pass? && now == before + bs
    case Failure(e) => r == Fail(e) && before <= now
  }

  class TLVWriter {
    var encoding: seq<Byte>
    var containerStack: seq<Container>

    constructor ()
      ensures encoding == [] && containerStack == []
    {
      encoding := [];
      containerStack := [];
    }

    method Append(bytes: Encoding) returns (r: Outcome<Error>)
      modifies this`encoding
      ensures Wrote(old(encoding), encoding, bytes, r)
    {
      if bytes.Failure? { return Fail(bytes.error); }
      encoding := encoding + bytes.value;
      return Pass;
    }

    method PutSignedInt(tag: Tag, n: int) returns (r: Outcome<Error>)
      modifies this`encoding
      ensures Wrote(old(encoding), encoding, EncodeSigned(containerStack, tag, n), r)
    {
      if !FitsInt64(n) { return Fail(IntegerOutOfRange); }
      SignedWidthFits(n);
      var payload := PackSigned(n, SignedWidth(n));
      :- Append(ControlAndTag(containerStack, SIGNED_INTEGER, tag, |payload|));
      encoding := encoding + payload;
      return Pass;
    }

    method PutUnsignedInt(tag: Tag, n: int) returns (r: Outcome<Error>)
      modifies this`encoding
      ensures Wrote(old(encoding), encoding, EncodeUnsigned(containerStack, tag, n), r)
    {
      var payload := PackUnsigned(n);
      if payload.Failure? { return Fail(payload.error); }
      :- Append(ControlAndTag(containerStack, UNSIGNED_INTEGER, tag, |payload.value|));
      encoding := encoding + payload.value;
      return Pass;
    }

    method PutFloat(tag: Tag, payload: seq<Byte>) returns (r: Outcome<Error>)
      modifies this`encoding
      ensures Wrote(old(encoding), encoding, EncodeFloat(containerStack, tag, payload), r)
    {
      var control := ControlAndTag(containerStack, FLOATING_POINT, tag, |payload|);
      :- Append(control);
      encoding := encoding + payload;
      return Pass;
    }

    method PutString(elementType: Byte, tag: Tag, content: seq<Byte>) returns (r: Outcome<Error>)
      requires elementType <= END_OF_CONTAINER
      modifies this`encoding
      ensures Wrote(old(encoding), encoding, EncodeString(containerStack, elementType, tag, content), r)
    {
      var length := PackUnsigned(|content|);
      if length.Failure? { return Fail(length.error); }
      :- Append(ControlAndTag(containerStack, elementType, tag, |length.value|));
      encoding := encoding + length.value;
      encoding := encoding + content;
      return Pass;
    }

    method StartContainer(tag: Tag, c: Container) returns (r: Outcome<Error>)
      modifies this
      ensures match ControlAndTag(old(containerStack), TypeOf(c), tag, 0)
              case Success(control) =>
                r.Pass? && encoding == old(encoding) + control && containerStack == [c] + old(containerStack)
              case Failure(e) => r == Fail(e) && old(encoding) <= encoding
    {
      var control := ControlAndTag(containerStack, TypeOf(c), tag, 0);
      :- Append(control);
      containerStack := [c] + containerStack;
      return Pass;
    }

    method EndContainer() returns (r: Outcome<Error>)
      requires containerStack != []
      modifies this
      ensures r.Pass?
      ensures encoding == old(encoding) + [END_OF_CONTAINER] && containerStack == old(containerStack)[1..]
    {
      containerStack := containerStack[1..];
      OrZero(END_OF_CONTAINER);
      r := Append(ControlAndTag(containerStack, END_OF_CONTAINER, Anonymous, 0));
    }

    method PutEntries(es: seq<Entry>) returns (r: Outcome<Error>)
      modifies this
      ensures r.Pass? ==> containerStack == old(containerStack)
      ensures Wrote(old(encoding), encoding, EncodeEntries(old(containerStack), es), r)
      decreases EntriesSize(es), 0
    {
      ghost var stack := containerStack;
      assert es[0..] == es;
      for i := 0 to |es|
        invariant containerStack == stack && old(encoding) <= encoding
        invariant After(old(encoding), EncodeEntries(stack, es)) == After(encoding, EncodeEntries(stack, es[i..]))
      {
        EntrySize(es, i);
        EntriesLeft(stack, es, i, encoding);
        :- Put(es[i].tag, es[i].value);
      }
      return Pass;
    }

    method PutElems(vs: seq<Value>) returns (r: Outcome<Error>)
      modifies this
      ensures r.Pass? ==> containerStack == old(containerStack)
      ensures Wrote(old(encoding), encoding, EncodeElems(old(containerStack), vs), r)
      decreases ElemsSize(vs), 0
    {
      ghost var stack := containerStack;
      assert vs[0..] == vs;
      for i := 0 to |vs|
        invariant containerStack == stack && old(encoding) <= encoding
        invariant After(old(encoding), EncodeElems(stack, vs)) == After(encoding, EncodeElems(stack, vs[i..]))
      {
        ElemSize(vs, i);
        ElemsLeft(stack, vs, i, encoding);
        :- Put(Anonymous, vs[i]);
      }
      return Pass;
    }

    /** The three containers that hold tagged items: startContainer, the items, endContainer. */
    method PutContainer(tag: Tag, c: Container, es: seq<Entry>) returns (r: Outcome<Error>)
      modifies this
      ensures r.Pass? ==> containerStack == old(containerStack)
      ensures Wrote(old(encoding), encoding, EncodeContainer(old(containerStack), tag, c, es), r)
      decreases EntriesSize(es), 1
    {
      r := StartContainer(tag, c);
      if r.Pass? {
        :- PutEntries(es);
        r := EndContainer();
      }
    }

    /** `put`: dispatch on the value, containers between a start and an end marker. */
    method Put(tag: Tag, v: Value) returns (r: Outcome<Error>)
      modifies this
      ensures r.Pass? ==> containerStack == old(containerStack)
      ensures Wrote(old(encoding), encoding, Encode(old(containerStack), tag, v), r)
      decreases Size(v), 1
    {
      match v
      case Null => r := Append(ControlAndTag(containerStack, NULL, tag, 0));
      case EnumMember(n) => r := PutUnsignedInt(tag, n);
      case Bool(b) => r := Append(ControlAndTag(containerStack, if b then BOOLEAN + 1 else BOOLEAN, tag, 0));
      case UInt(n) => r := PutUnsignedInt(tag, n);
      case Int(n) => r := PutSignedInt(tag, n);
      case Float32(f) => r := PutFloat(tag, f);
      case Float64(d) => r := PutFloat(tag, d);
      case Text(utf8) => r := PutString(UTF8_STRING, tag, utf8);
      case Bytes(content) => r := PutString(BYTE_STRING, tag, content);
      case Dict(es) =>
        SortedSize(es);
        r := PutContainer(tag, Structure, Sorted(es));
      case Mapping(es) => r := PutContainer(tag, Structure, es);
      case TlvList(es) => r := PutContainer(tag, Path, es);
      case Sequence(vs) =>
        :- StartContainer(tag, Array);
        :- PutElems(vs);
        r := EndContainer();
    }
  }

  lemma {:induction false} EntrySize(es: seq<Entry>, i: nat)
    requires i < |es|
    ensures Size(es[i].value) < EntriesSize(es)
  {
    if i > 0 {
      EntrySize(es[1..], i - 1);
    }
  }

  lemma {:induction false} ElemSize(vs: seq<Value>, i: nat)
    requires i < |vs|
    ensures Size(vs[i]) < ElemsSize(vs)
  {
    if i > 0 {
      ElemSize(vs[1..], i - 1);
    }
  }
}
