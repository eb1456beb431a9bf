/** What the writer writes, the reader reads back: exactly, at any place in a buffer,
    except for a TLVList, whose type the reader does not know. */
module TlvRoundTrip {
  import opened Wrappers
  import opened TlvFormat
  import opened TlvWriter
  import opened TlvReader

  /** Some value in `v`, at any depth, is a TLVList. */
  predicate HasList(v: Value) {
    match v
    case Dict(es) => SomeList(es)
    case Mapping(es) => SomeList(es)
    case TlvList(_) => true
    case Sequence(vs) => SomeListElem(vs)
    case _ => false
  }

  predicate SomeList(es: seq<Entry>) {
    es != [] && (assert es decreases to es[0]; HasList(es[0].value) || SomeList(es[1..]))
  }

  predicate SomeListElem(vs: seq<Value>) {
    vs != [] && (HasList(vs[0]) || SomeListElem(vs[1..]))
  }

  /** Python mappings have each key once. */
  predicate Proper(v: Value) {
    match v
    case Dict(es) => Distinct(es) && AllProper(es)
    case Mapping(es) => Distinct(es) && AllProper(es)
    case TlvList(es) => AllProper(es)
    case Sequence(vs) => AllProperElems(vs)
    case _ => true
  }

  predicate AllProper(es: seq<Entry>) {
    es == [] || (assert es decreases to es[0]; Proper(es[0].value) && AllProper(es[1..]))
  }

  predicate AllProperElems(vs: seq<Value>) {
    vs == [] || (Proper(vs[0]) && AllProperElems(vs[1..]))
  }

  predicate Distinct(es: seq<Entry>) {
    es == [] || ((forall e | e in es[1..] :: e.tag != es[0].tag) && Distinct(es[1..]))
  }

  /** The value the reader has for `v`: enum members become uints, and a plain dict is
      in the order of its sorted tags. */
  function Meaning(v: Value): Decoded
    requires !HasList(v)
    decreases Size(v), 1
  {
    match v
    case Null => DNull
    case EnumMember(n) => DUInt(if n < 0 then 0 else n)
    case Bool(b) => DBool(b)
    case UInt(n) => DUInt(n)
    case Int(n) => DInt(n)
    case Float32(f) => DFloat32(f)
    case Float64(d) => DFloat64(d)
    case Text(utf8) => DText(utf8)
    case Bytes(content) => DBytes(content)
    case Dict(es) =>
      SortedSize(es);
      SortedKeeps(es);
      DStruct(Fields(Sorted(es)))
    case Mapping(es) => DStruct(Fields(es))
    case Sequence(vs) => DArray(Meanings(vs))
  }

  function Fields(es: seq<Entry>): (fs: seq<Field>)
    requires !SomeList(es)
    ensures |fs| == |es|
    decreases EntriesSize(es), 0
  {
    if es == [] then []
    else [Field(KeyOf(TagRead(es[0].tag)), Meaning(es[0].value))] + Fields(es[1..])
  }

  function Meanings(vs: seq<Value>): (ds: seq<Decoded>)
    requires !SomeListElem(vs)
    ensures |ds| == |vs|
    decreases ElemsSize(vs), 0
  {
    if vs == [] then [] else [Meaning(vs[0])] + Meanings(vs[1..])
  }

  /** The tag the reader sees. */
  function TagRead(tag: Tag): Option<Byte> {
    match tag
    case Context(n) => if 0 <= n < 256 then Some(n) else None
    case _ => None
  }

  // ---- sorting --------------------------------------------------------------------

  lemma {:induction false} InsertPermutes(e: Entry, es: seq<Entry>)
    ensures multiset(Insert(e, es)) == multiset(es) + multiset{e}
  {
    if es == [] || SortKey(e.tag) <= SortKey(es[0].tag) {
    } else {
      InsertPermutes(e, es[1..]);
      assert es == [es[0]] + es[1..];
    }
  }

  lemma {:induction false} SameMembers(a: seq<Entry>, b: seq<Entry>)
    requires multiset(a) == multiset(b)
    ensures forall e :: e in a <==> e in b
  {
    forall e ensures e in a <==> e in b {
      assert e in a <==> e in multiset(a);
      assert e in b <==> e in multiset(b);
    }
  }

  /** The writer's sort keeps exactly the same items ... */
  lemma {:induction false} SortedPermutes(es: seq<Entry>)
    ensures multiset(Sorted(es)) == multiset(es)
    ensures forall e :: e in Sorted(es) <==> e in es
  {
    if es != [] {
      SortedPermutes(es[1..]);
      InsertPermutes(es[0], Sorted(es[1..]));
      assert es == [es[0]] + es[1..];
    }
    SameMembers(Sorted(es), es);
  }

  lemma {:induction false} InsertKeeps(e: Entry, es: seq<Entry>)
    ensures SomeList(Insert(e, es)) <==> HasList(e.value) || SomeList(es)
    ensures AllProper(Insert(e, es)) <==> Proper(e.value) && AllProper(es)
  {
    if es == [] || SortKey(e.tag) <= SortKey(es[0].tag) {
      assert ([e] + es)[1..] == es;
    } else {
      InsertKeeps(e, es[1..]);
      assert Insert(e, es)[1..] == Insert(e, es[1..]);
    }
  }

  lemma {:induction false} SortedKeeps(es: seq<Entry>)
    ensures SomeList(Sorted(es)) <==> SomeList(es)
    ensures AllProper(Sorted(es)) <==> AllProper(es)
  {
    if es != [] {
      SortedKeeps(es[1..]);
      InsertKeeps(es[0], Sorted(es[1..]));
    }
  }

  predicate Ascending(es: seq<Entry>) {
    forall i, j | 0 <= i < j < |es| :: SortKey(es[i].tag) <= SortKey(es[j].tag)
  }

  lemma {:induction false} InsertAscends(e: Entry, es: seq<Entry>)
    requires Ascending(es)
    ensures Ascending(Insert(e, es))
  {
    if es == [] || SortKey(e.tag) <= SortKey(es[0].tag) {
    } else {
      InsertAscends(e, es[1..]);
      var rest := Insert(e, es[1..]);
      forall j | 0 <= j < |rest|
        ensures SortKey(es[0].tag) <= SortKey(rest[j].tag)
      {
        InsertPermutes(e, es[1..]);
        assert rest[j] in multiset(rest);
        assert rest[j] in multiset(es[1..]) + multiset{e};
      }
    }
  }

  /** ... and puts them in the order of tlvTagToSortKey ... */
  lemma {:induction false} SortedAscends(es: seq<Entry>)
    ensures Ascending(Sorted(es))
  {
    if es != [] {
      SortedAscends(es[1..]);
      InsertAscends(es[0], Sorted(es[1..]));
    }
  }

  lemma {:induction false} InsertDistinct(e: Entry, es: seq<Entry>)
    requires Distinct(es) && forall f | f in es :: f.tag != e.tag
    ensures Distinct(Insert(e, es))
  {
    if es == [] || SortKey(e.tag) <= SortKey(es[0].tag) {
      assert ([e] + es)[1..] == es;
    } else {
      InsertDistinct(e, es[1..]);
      InsertPermutes(e, es[1..]);
      var rest := Insert(e, es[1..]);
      assert Insert(e, es)[1..] == rest;
      forall f | f in rest
        ensures f.tag != es[0].tag
      {
        assert f in multiset(rest);
      }
    }
  }

  /** ... each key still once. */
  lemma {:induction false} SortedDistinct(es: seq<Entry>)
    requires Distinct(es)
    ensures Distinct(Sorted(es))
  {
    if es != [] {
      SortedDistinct(es[1..]);
      SortedPermutes(es[1..]);
      InsertDistinct(es[0], Sorted(es[1..]));
    }
  }

  // ---- one element ------------------------------------------------------------------

  /** `bs` stands in `tlv` at `pos`. */
  predicate At(tlv: seq<Byte>, pos: nat, bs: seq<Byte>)
    decreases bs
  {
    bs == [] || (pos < |tlv| && tlv[pos] == bs[0] && At(tlv, pos + 1, bs[1..]))
  }

  lemma {:induction false} AtSplit(tlv: seq<Byte>, pos: nat, a: seq<Byte>, b: seq<Byte>)
    requires At(tlv, pos, a + b)
    ensures At(tlv, pos, a) && At(tlv, pos + |a|, b)
    decreases a
  {
    if a == [] {
      assert a + b == b;
    } else {
      assert (a + b)[1..] == a[1..] + b;
      AtSplit(tlv, pos + 1, a[1..], b);
    }
  }

  lemma {:induction false} AtSlice(tlv: seq<Byte>, pos: nat, bs: seq<Byte>)
    requires At(tlv, pos, bs) && pos <= |tlv|
    ensures pos + |bs| <= |tlv| && tlv[pos..pos + |bs|] == bs
    decreases bs
  {
    if bs != [] {
      AtSlice(tlv, pos + 1, bs[1..]);
      assert tlv[pos..pos + |bs|] == [tlv[pos]] + tlv[pos + 1..pos + |bs|];
    }
  }

  lemma {:induction false} AtInside(tlv: seq<Byte>, pos: nat, bs: seq<Byte>)
    requires At(tlv, pos, bs) && bs != []
    ensures pos + |bs| <= |tlv|
    decreases bs
  {
    if |bs| > 1 {
      AtInside(tlv, pos + 1, bs[1..]);
    }
  }

  lemma {:induction false} AtWhole(tlv: seq<Byte>, pos: nat, bs: seq<Byte>)
    requires pos + |bs| <= |tlv| && tlv[pos..pos + |bs|] == bs
    ensures At(tlv, pos, bs)
    decreases bs
  {
    if bs != [] {
      assert tlv[pos..pos + |bs|][0] == tlv[pos];
      assert tlv[pos + 1..pos + |bs|] == tlv[pos..pos + |bs|][1..];
      AtWhole(tlv, pos + 1, bs[1..]);
    }
  }

  /** The control byte's type after the width was or'ed in. */
  function SizedType(elementType: Byte, width: nat): nat {
    if elementType == FLOATING_POINT then (if width == 8 then 0x0B else 0x0A)
    else elementType + (if width == 2 then 1 else if width == 4 then 2 else if width == 8 then 3 else 0)
  }

  lemma {:induction false} OrWidth(elementType: Byte, code: nat)
    requires elementType in {SIGNED_INTEGER, UNSIGNED_INTEGER, UTF8_STRING, BYTE_STRING} && code < 4
    ensures BitOr(elementType, code) == elementType + code
  {
    OrZero(elementType / 4);
    assert BitOr(elementType / 2, code / 2) == elementType / 2 + code / 2;
  }

  predicate Widthed(elementType: Byte, width: nat) {
    elementType in {SIGNED_INTEGER, UNSIGNED_INTEGER, UTF8_STRING, BYTE_STRING} ||
    (elementType == FLOATING_POINT && (width == 4 || width == 8)) ||
    (elementType != FLOATING_POINT && elementType <= END_OF_CONTAINER && width == 0)
  }

  lemma {:induction false} TypeBits(elementType: Byte, width: nat)
    requires Widthed(elementType, width)
    ensures BitOr(elementType, if width == 2 then 1 else if width == 4 then 2 else if width == 8 then 3 else 0)
            == SizedType(elementType, width) < 0x20
    ensures BitOr(SizedType(elementType, width), TAG_CONTEXT) == SizedType(elementType, width) + 0x20
  {
    if elementType == FLOATING_POINT {
      assert BitOr(0x0A, 2) == 0x0A && BitOr(0x0A, 3) == 0x0B;
    } else if width == 0 {
      OrZero(elementType);
    } else {
      OrWidth(elementType, if width == 2 then 1 else if width == 4 then 2 else if width == 8 then 3 else 0);
    }
    OrBit5(SizedType(elementType, width));
  }

  /** The control byte and tag of an element of type `t`. */
  predicate Header(control: seq<Byte>, t: nat, tag: Tag) {
    t < 0x20 && control == match TagRead(tag) case None => [t] case Some(n) => [t + 0x20, n]
  }

  lemma {:induction false} ControlBytes(stack: seq<Container>, elementType: Byte, tag: Tag, width: nat)
    requires Widthed(elementType, width)
    requires ControlAndTag(stack, elementType, tag, width).Success?
    ensures Header(ControlAndTag(stack, elementType, tag, width).value, SizedType(elementType, width), tag)
  {
    TypeBits(elementType, width);
  }

  // ---- what the reader makes of a header and a payload --------------------------------

  function AsItem(tag: Option<Byte>, v: Result<Step<Decoded>, Error>): Result<Step<Option<Item>>, Error> {
    match v
    case Success(s) => Success(Step(Some(Item(tag, s.value)), s.next))
    case Failure(e) => Failure(e)
  }

  lemma {:induction false} ReadUntagged(tlv: seq<Byte>, pos: nat, t: Byte)
    requires t < 0x20 && t != END_OF_CONTAINER && pos < |tlv| && tlv[pos] == t
    ensures ReadElement(tlv, pos) == AsItem(None, ReadValue(tlv, pos + 1, t))
  {
  }

  lemma {:induction false} ReadTagged(tlv: seq<Byte>, pos: nat, t: Byte)
    requires t < 0x20 && t != END_OF_CONTAINER && pos + 1 < |tlv| && tlv[pos] == t + 0x20
    ensures ReadElement(tlv, pos) == AsItem(Some(tlv[pos + 1]), ReadValue(tlv, pos + 2, t))
  {
    assert tlv[pos] / 32 == 1 && tlv[pos] % 32 == t;
  }

  /** With the control byte and tag in place, an element is its value. */
  lemma {:induction false} ElementIsValue(tlv: seq<Byte>, pos: nat, control: seq<Byte>, t: nat, tag: Tag)
    requires Header(control, t, tag) && t != END_OF_CONTAINER && At(tlv, pos, control)
    ensures pos + |control| <= |tlv|
    ensures ReadElement(tlv, pos) == AsItem(TagRead(tag), ReadValue(tlv, pos + |control|, t))
  {
    if TagRead(tag).None? {
      ReadUntagged(tlv, pos, t);
    } else {
      assert At(tlv, pos + 1, control[1..]);
      ReadTagged(tlv, pos, t);
    }
  }

  lemma {:induction false} UnpackAt(tlv: seq<Byte>, pos: nat, bs: seq<Byte>)
    requires At(tlv, pos, bs) && pos <= |tlv|
    ensures Unpack(tlv, pos, |bs|) == Success(bs)
  {
    AtSlice(tlv, pos, bs);
  }

  lemma {:induction false} SliceAt(tlv: seq<Byte>, pos: nat, bs: seq<Byte>)
    requires At(tlv, pos, bs) && pos <= |tlv|
    ensures Slice(tlv, pos, |bs|) == bs
  {
    AtSlice(tlv, pos, bs);
  }

  /** Element `d` is read, and the cursor moves by exactly `length`. */
  ghost predicate Reads(tlv: seq<Byte>, pos: nat, tag: Tag, length: nat, d: Decoded) {
    pos < |tlv| && ReadElement(tlv, pos) == Success(Step(Some(Item(TagRead(tag), d)), pos + length))
  }

  lemma {:induction false} ReadsFrom(tlv: seq<Byte>, pos: nat, control: seq<Byte>, t: nat, tag: Tag, d: Decoded, next: nat)
    requires Header(control, t, tag) && t != END_OF_CONTAINER && At(tlv, pos, control)
    requires pos <= next && pos + |control| <= |tlv|
    requires ReadValue(tlv, pos + |control|, t) == Success(Step(d, next))
    ensures Reads(tlv, pos, tag, next - pos, d)
  {
    ElementIsValue(tlv, pos, control, t, tag);
  }

  function WidthCode(width: nat): nat {
    if width == 2 then 1 else if width == 4 then 2 else if width == 8 then 3 else 0
  }

  lemma {:induction false} UnsignedRead(tlv: seq<Byte>, pos: nat, control: seq<Byte>, payload: seq<Byte>, tag: Tag)
    requires |payload| in {1, 2, 4, 8} && Header(control, UNSIGNED_INTEGER + WidthCode(|payload|), tag)
    requires At(tlv, pos, control + payload)
    ensures Reads(tlv, pos, tag, |control + payload|, DUInt(FromLittleEndian(payload)))
  {
    AtSplit(tlv, pos, control, payload);
    ElementIsValue(tlv, pos, control, UNSIGNED_INTEGER + WidthCode(|payload|), tag);
    UnpackAt(tlv, pos + |control|, payload);
  }

  lemma {:induction false} SignedRead(tlv: seq<Byte>, pos: nat, control: seq<Byte>, payload: seq<Byte>, tag: Tag)
    requires |payload| in {1, 2, 4, 8} && Header(control, SIGNED_INTEGER + WidthCode(|payload|), tag)
    requires At(tlv, pos, control + payload)
    ensures Reads(tlv, pos, tag, |control + payload|, DInt(UnpackSigned(payload)))
  {
    AtSplit(tlv, pos, control, payload);
    ElementIsValue(tlv, pos, control, SIGNED_INTEGER + WidthCode(|payload|), tag);
    UnpackAt(tlv, pos + |control|, payload);
  }

  lemma {:induction false} FloatRead(tlv: seq<Byte>, pos: nat, control: seq<Byte>, payload: seq<Byte>, tag: Tag)
    requires |payload| == 4 || |payload| == 8
    requires Header(control, if |payload| == 4 then 0x0A else 0x0B, tag)
    requires At(tlv, pos, control + payload)
    ensures Reads(tlv, pos, tag, |control + payload|, if |payload| == 4 then DFloat32(payload) else DFloat64(payload))
  {
    AtSplit(tlv, pos, control, payload);
    ElementIsValue(tlv, pos, control, if |payload| == 4 then 0x0A else 0x0B, tag);
    UnpackAt(tlv, pos + |control|, payload);
  }

  lemma {:induction false} StringAt(tlv: seq<Byte>, pos: nat, length: seq<Byte>, content: seq<Byte>)
    requires FromLittleEndian(length) == |content| && At(tlv, pos, length + content) && pos <= |tlv|
    ensures ReadString(tlv, pos, |length|) == Success(Step(content, pos + |length| + |content|))
  {
    AtSplit(tlv, pos, length, content);
    UnpackAt(tlv, pos, length);
    SliceAt(tlv, pos + |length|, content);
  }

  lemma {:induction false} StringValue(tlv: seq<Byte>, pos: nat, elementType: Byte, length: seq<Byte>, content: seq<Byte>)
    requires elementType == UTF8_STRING || elementType == BYTE_STRING
    requires |length| in {1, 2, 4, 8} && pos <= |tlv|
    requires ReadString(tlv, pos, |length|) == Success(Step(content, pos + |length| + |content|))
    ensures ReadValue(tlv, pos, elementType + WidthCode(|length|)) ==
            Success(Step(if elementType == UTF8_STRING then DText(content) else DBytes(content),
                         pos + |length| + |content|))
  {
  }

  lemma {:induction false} StringRead(tlv: seq<Byte>, pos: nat, control: seq<Byte>, elementType: Byte, length: seq<Byte>,
                   content: seq<Byte>, tag: Tag)
    requires elementType == UTF8_STRING || elementType == BYTE_STRING
    requires |length| in {1, 2, 4, 8} && Header(control, elementType + WidthCode(|length|), tag)
    requires At(tlv, pos, control) && pos + |control| <= |tlv|
    requires ReadString(tlv, pos + |control|, |length|)
             == Success(Step(content, pos + |control| + |length| + |content|))
    ensures Reads(tlv, pos, tag, |control| + |length| + |content|,
                  if elementType == UTF8_STRING then DText(content) else DBytes(content))
  {
    var p := pos + |control|;
    StringValue(tlv, p, elementType, length, content);
    ReadsFrom(tlv, pos, control, elementType + WidthCode(|length|), tag,
              if elementType == UTF8_STRING then DText(content) else DBytes(content), p + |length| + |content|);
  }

  lemma {:induction false} StructureRead(tlv: seq<Byte>, pos: nat, control: seq<Byte>, tag: Tag)
    requires Header(control, STRUCTURE, tag) && At(tlv, pos, control)
    ensures pos < |tlv|
    ensures ReadElement(tlv, pos) ==
            match ReadItems(tlv, pos + |control|)
            case Success(items) => Success(Step(Some(Item(TagRead(tag), DStruct(Store([], items.value)))), items.next))
            case Failure(e) => Failure(e)
  {
    ElementIsValue(tlv, pos, control, STRUCTURE, tag);
  }

  lemma {:induction false} ArrayRead(tlv: seq<Byte>, pos: nat, control: seq<Byte>, tag: Tag)
    requires Header(control, ARRAY, tag) && At(tlv, pos, control)
    ensures pos < |tlv|
    ensures ReadElement(tlv, pos) ==
            match ReadItems(tlv, pos + |control|)
            case Success(items) => Success(Step(Some(Item(TagRead(tag), DArray(Values(items.value)))), items.next))
            case Failure(e) => Failure(e)
  {
    ElementIsValue(tlv, pos, control, ARRAY, tag);
  }

  lemma {:induction false} EndReads(tlv: seq<Byte>, pos: nat)
    requires At(tlv, pos, [END_OF_CONTAINER])
    ensures ReadItems(tlv, pos) == Success(Step([], pos + 1))
  {
    assert ReadElement(tlv, pos) == Success(Step(None, pos + 1));
  }

  lemma {:induction false} ItemsCons(tlv: seq<Byte>, pos: nat, item: Item, next: nat)
    requires pos < |tlv| && ReadElement(tlv, pos) == Success(Step(Some(item), next))
    ensures ReadItems(tlv, pos) == Following([item], ReadItems(tlv, next))
  {
  }

  lemma {:induction false} ItemsFail(tlv: seq<Byte>, pos: nat, e: Error)
    requires pos < |tlv| && ReadElement(tlv, pos) == Failure(e)
    ensures ReadItems(tlv, pos) == Failure(e)
  {
  }

  // ---- what the writer's bytes consist of ----------------------------------------------

  lemma {:induction false} UnsignedBytes(stack: seq<Container>, tag: Tag, n: int)
    returns (control: seq<Byte>, payload: seq<Byte>)
    requires EncodeUnsigned(stack, tag, n).Success?
    ensures EncodeUnsigned(stack, tag, n) == Success(control + payload)
    ensures |payload| in {1, 2, 4, 8} && Header(control, UNSIGNED_INTEGER + WidthCode(|payload|), tag)
    ensures FromLittleEndian(payload) == n
  {
    payload := LittleEndian(n, UnsignedWidth(n));
    control := ControlAndTag(stack, UNSIGNED_INTEGER, tag, |payload|).value;
    Widths();
    UnpackPack(n, |payload|);
    ControlBytes(stack, UNSIGNED_INTEGER, tag, |payload|);
  }

  lemma {:induction false} SignedBytes(stack: seq<Container>, tag: Tag, n: int)
    returns (control: seq<Byte>, payload: seq<Byte>)
    requires EncodeSigned(stack, tag, n).Success?
    ensures EncodeSigned(stack, tag, n) == Success(control + payload)
    ensures |payload| in {1, 2, 4, 8} && Header(control, SIGNED_INTEGER + WidthCode(|payload|), tag)
    ensures UnpackSigned(payload) == n
  {
    SignedWidthFits(n);
    payload := PackSigned(n, SignedWidth(n));
    control := ControlAndTag(stack, SIGNED_INTEGER, tag, |payload|).value;
    UnpackPackSigned(n, |payload|);
    ControlBytes(stack, SIGNED_INTEGER, tag, |payload|);
  }

  lemma {:induction false} FloatBytes(stack: seq<Container>, tag: Tag, payload: seq<Byte>) returns (control: seq<Byte>)
    requires |payload| == 4 || |payload| == 8
    requires EncodeFloat(stack, tag, payload).Success?
    ensures EncodeFloat(stack, tag, payload) == Success(control + payload)
    ensures Header(control, if |payload| == 4 then 0x0A else 0x0B, tag)
  {
    control := ControlAndTag(stack, FLOATING_POINT, tag, |payload|).value;
    ControlBytes(stack, FLOATING_POINT, tag, |payload|);
  }

  lemma {:induction false} StringBytes(stack: seq<Container>, elementType: Byte, tag: Tag, content: seq<Byte>)
    returns (control: seq<Byte>, length: seq<Byte>)
    requires elementType == UTF8_STRING || elementType == BYTE_STRING
    requires EncodeString(stack, elementType, tag, content).Success?
    ensures EncodeString(stack, elementType, tag, content) == Success(control + (length + content))
    ensures |length| in {1, 2, 4, 8} && Header(control, elementType + WidthCode(|length|), tag)
    ensures FromLittleEndian(length) == |content|
  {
    length := LittleEndian(|content|, UnsignedWidth(|content|));
    control := ControlAndTag(stack, elementType, tag, |length|).value;
    Widths();
    UnpackPack(|content|, |length|);
    ControlBytes(stack, elementType, tag, |length|);
    assert control + length + content == control + (length + content);
  }

  lemma {:induction false} PlainBytes(stack: seq<Container>, elementType: Byte, tag: Tag)
    requires elementType in {NULL, BOOLEAN, BOOLEAN + 1}
    requires ControlAndTag(stack, elementType, tag, 0).Success?
    ensures Header(ControlAndTag(stack, elementType, tag, 0).value, elementType, tag)
  {
    ControlBytes(stack, elementType, tag, 0);
  }

  lemma {:induction false} ContainerBytes(stack: seq<Container>, tag: Tag, c: Container, es: seq<Entry>)
    returns (control: seq<Byte>, body: seq<Byte>)
    requires EncodeContainer(stack, tag, c, es).Success?
    ensures EncodeContainer(stack, tag, c, es) == Success(control + body + [END_OF_CONTAINER])
    ensures Header(control, TypeOf(c), tag) && EncodeEntries([c] + stack, es) == Success(body)
  {
    control := ControlAndTag(stack, TypeOf(c), tag, 0).value;
    body := EncodeEntries([c] + stack, es).value;
    ControlBytes(stack, TypeOf(c), tag, 0);
  }

  // ---- containers -------------------------------------------------------------------

  function Items(es: seq<Entry>): (items: seq<Item>)
    requires !SomeList(es)
    ensures |items| == |es|
  {
    if es == [] then []
    else [Item(TagRead(es[0].tag), Meaning(es[0].value))] + Items(es[1..])
  }

  function ElemItems(vs: seq<Value>): (items: seq<Item>)
    requires !SomeListElem(vs)
    ensures |items| == |vs|
  {
    if vs == [] then []
    else [Item(None, Meaning(vs[0]))] + ElemItems(vs[1..])
  }

  lemma {:induction false} ElemItemsValues(vs: seq<Value>)
    requires !SomeListElem(vs)
    ensures Values(ElemItems(vs)) == Meanings(vs)
  {
    if vs != [] {
      ElemItemsValues(vs[1..]);
      assert ElemItems(vs)[1..] == ElemItems(vs[1..]);
    }
  }

  /** A structure's tags were accepted, so each is a context tag of one byte. */
  lemma {:induction false} StructureTags(stack: seq<Container>, es: seq<Entry>)
    requires stack != [] && stack[0] == Structure && EncodeEntries(stack, es).Success?
    ensures ContextTags(es)
  {
    if es != [] {
      StructureTags(stack, es[1..]);
      TagAccepted(stack, es[0].tag, es[0].value);
    }
  }

  lemma {:induction false} TagAccepted(stack: seq<Container>, tag: Tag, v: Value)
    requires stack != [] && stack[0] == Structure && Encode(stack, tag, v).Success?
    ensures tag.Context? && 0 <= tag.number < 256
  {
  }

  lemma {:induction false} SetFresh(d: seq<Field>, key: Key, value: Decoded)
    requires forall f | f in d :: f.key != key
    ensures SetKey(d, key, value) == d + [Field(key, value)]
  {
    if d != [] {
      SetFresh(d[1..], key, value);
      assert d + [Field(key, value)] == [d[0]] + (d[1..] + [Field(key, value)]);
    }
  }

  function AsFields(items: seq<Item>): seq<Field> {
    if items == [] then [] else [Field(KeyOf(items[0].tag), items[0].value)] + AsFields(items[1..])
  }

  predicate DistinctKeys(fs: seq<Field>) {
    fs == [] || ((forall f | f in fs[1..] :: f.key != fs[0].key) && DistinctKeys(fs[1..]))
  }

  lemma {:induction false} FreshKey(d: seq<Field>, f: Field, rest: seq<Field>)
    requires DistinctKeys(d + [f] + rest)
    ensures forall g | g in d :: g.key != f.key
  {
    if d != [] {
      assert (d + [f] + rest)[1..] == d[1..] + [f] + rest;
      FreshKey(d[1..], f, rest);
      assert f in d[1..] + [f] + rest;
    }
  }

  /** Storing items under keys that are all different appends them in order. */
  lemma {:induction false} StoreDistinct(d: seq<Field>, items: seq<Item>)
    requires DistinctKeys(d + AsFields(items))
    ensures Store(d, items) == d + AsFields(items)
    decreases items
  {
    if items != [] {
      var f := Field(KeyOf(items[0].tag), items[0].value);
      assert d + AsFields(items) == d + [f] + AsFields(items[1..]);
      FreshKey(d, f, AsFields(items[1..]));
      SetFresh(d, f.key, f.value);
      StoreDistinct(d + [f], items[1..]);
    }
  }

  lemma {:induction false} FieldsOfItems(es: seq<Entry>)
    requires !SomeList(es)
    ensures AsFields(Items(es)) == Fields(es)
  {
    if es != [] {
      FieldsOfItems(es[1..]);
      assert Items(es)[1..] == Items(es[1..]);
    }
  }

  predicate ContextTags(es: seq<Entry>) {
    forall e | e in es :: e.tag.Context? && 0 <= e.tag.number < 256
  }

  lemma {:induction false} FieldFrom(es: seq<Entry>, f: Field) returns (e: Entry)
    requires !SomeList(es) && f in Fields(es)
    ensures e in es && f.key == KeyOf(TagRead(e.tag))
  {
    if f == Fields(es)[0] {
      e := es[0];
    } else {
      assert Fields(es)[1..] == Fields(es[1..]);
      e := FieldFrom(es[1..], f);
    }
  }

  lemma {:induction false} DistinctFields(es: seq<Entry>)
    requires !SomeList(es) && ContextTags(es) && Distinct(es)
    ensures DistinctKeys(Fields(es))
  {
    if es != [] {
      var fs := Fields(es);
      assert fs[1..] == Fields(es[1..]);
      DistinctFields(es[1..]);
      forall f | f in fs[1..]
        ensures f.key != fs[0].key
      {
        var e := FieldFrom(es[1..], f);
        assert es[0] in es && e in es;
      }
    }
  }

  // ---- the round trip ---------------------------------------------------------------

  /** What reading `v`'s bytes must give: its meaning and the cursor right behind it, or,
      with a TLVList inside, an unsupported-type error. */
  ghost predicate ReadsBack(tlv: seq<Byte>, pos: nat, tag: Tag, v: Value, length: nat) {
    && pos < |tlv|
    && ReadElement(tlv, pos) ==
       if HasList(v) then Failure(UnsupportedType)
       else Success(Step(Some(Item(TagRead(tag), Meaning(v))), pos + length))
  }

  lemma {:induction false} ElementReadsBack(tlv: seq<Byte>, pos: nat, stack: seq<Container>, tag: Tag, v: Value,
                                            bs: seq<Byte>)
    requires Proper(v) && Encode(stack, tag, v) == Success(bs)
    requires At(tlv, pos, bs)
    ensures ReadsBack(tlv, pos, tag, v, |bs|)
    decreases Size(v), 1
  {
    if v.Dict? {
      SortedSize(v.entries);
      SortedKeeps(v.entries);
      SortedDistinct(v.entries);
      StructureReadsBack(tlv, pos, stack, tag, Sorted(v.entries), bs);
    } else if v.Mapping? {
      StructureReadsBack(tlv, pos, stack, tag, v.entries, bs);
    } else if v.TlvList? {
      ListRefused(tlv, pos, stack, tag, v.entries, bs);
    } else if v.Sequence? {
      SequenceReadsBack(tlv, pos, stack, tag, v.elems, bs);
    } else {
      ScalarReadsBack(tlv, pos, stack, tag, v, bs);
    }
  }

  lemma {:induction false} ScalarReadsBack(tlv: seq<Byte>, pos: nat, stack: seq<Container>, tag: Tag, v: Value,
                                           bs: seq<Byte>)
    requires !v.Dict? && !v.Mapping? && !v.TlvList? && !v.Sequence?
    requires Encode(stack, tag, v) == Success(bs) && At(tlv, pos, bs)
    ensures Reads(tlv, pos, tag, |bs|, Meaning(v))
  {
    match v
    case Null => PlainBytes(stack, NULL, tag); ElementIsValue(tlv, pos, bs, NULL, tag);
    case Bool(b) =>
      var t := if b then BOOLEAN + 1 else BOOLEAN;
      PlainBytes(stack, t, tag);
      ElementIsValue(tlv, pos, bs, t, tag);
    case EnumMember(n) => UnsignedReadsBack(tlv, pos, stack, tag, n, bs);
    case UInt(n) => UnsignedReadsBack(tlv, pos, stack, tag, n, bs);
    case Int(n) =>
      var control, payload := SignedBytes(stack, tag, n);
      SignedRead(tlv, pos, control, payload, tag);
    case Float32(f) =>
      var control := FloatBytes(stack, tag, f);
      FloatRead(tlv, pos, control, f, tag);
    case Float64(d) =>
      var control := FloatBytes(stack, tag, d);
      FloatRead(tlv, pos, control, d, tag);
    case Text(utf8) => StringReadsBack(tlv, pos, stack, UTF8_STRING, tag, utf8, bs);
    case Bytes(content) => StringReadsBack(tlv, pos, stack, BYTE_STRING, tag, content, bs);
  }

  /** The bytes of a string, where they lie: control, length, content. */
  lemma {:induction false} StringLies(tlv: seq<Byte>, pos: nat, stack: seq<Container>, elementType: Byte, tag: Tag,
                                      content: seq<Byte>, bs: seq<Byte>) returns (control: seq<Byte>, length: seq<Byte>)
    requires elementType == UTF8_STRING || elementType == BYTE_STRING
    requires EncodeString(stack, elementType, tag, content) == Success(bs) && At(tlv, pos, bs)
    ensures |length| in {1, 2, 4, 8} && Header(control, elementType + WidthCode(|length|), tag)
    ensures At(tlv, pos, control) && pos + |control| <= |tlv| && |bs| == |control| + |length| + |content|
    ensures ReadString(tlv, pos + |control|, |length|)
         == Success(Step(content, pos + |control| + |length| + |content|))
  {
    control, length := StringBytes(stack, elementType, tag, content);
    AtSplit(tlv, pos, control, length + content);
    AtInside(tlv, pos, control);
    StringAt(tlv, pos + |control|, length, content);
  }

  lemma {:induction false} StringReadsBack(tlv: seq<Byte>, pos: nat, stack: seq<Container>, elementType: Byte, tag: Tag,
                                           content: seq<Byte>, bs: seq<Byte>)
    requires elementType == UTF8_STRING || elementType == BYTE_STRING
    requires EncodeString(stack, elementType, tag, content) == Success(bs) && At(tlv, pos, bs)
    ensures Reads(tlv, pos, tag, |bs|, if elementType == UTF8_STRING then DText(content) else DBytes(content))
  {
    var control, length := StringLies(tlv, pos, stack, elementType, tag, content, bs);
    StringRead(tlv, pos, control, elementType, length, content, tag);
  }

  lemma {:induction false} UnsignedReadsBack(tlv: seq<Byte>, pos: nat, stack: seq<Container>, tag: Tag, n: int,
                                             bs: seq<Byte>)
    requires EncodeUnsigned(stack, tag, n) == Success(bs) && At(tlv, pos, bs)
    ensures n >= 0 && Reads(tlv, pos, tag, |bs|, DUInt(n))
  {
    var control, payload := UnsignedBytes(stack, tag, n);
    UnsignedRead(tlv, pos, control, payload, tag);
  }

  lemma {:induction false} ListRefused(tlv: seq<Byte>, pos: nat, stack: seq<Container>, tag: Tag, es: seq<Entry>,
                                       bs: seq<Byte>)
    requires EncodeContainer(stack, tag, Path, es) == Success(bs) && At(tlv, pos, bs)
    ensures pos < |tlv| && ReadElement(tlv, pos) == Failure(UnsupportedType)
  {
    var control, body := ContainerAt(tlv, pos, stack, tag, Path, es, bs);
    ElementIsValue(tlv, pos, control, PATH, tag);
  }

  lemma {:induction false} ContainerAt(tlv: seq<Byte>, pos: nat, stack: seq<Container>, tag: Tag, c: Container,
                                       es: seq<Entry>, bs: seq<Byte>)
    returns (control: seq<Byte>, body: seq<Byte>)
    requires EncodeContainer(stack, tag, c, es) == Success(bs) && At(tlv, pos, bs)
    ensures Header(control, TypeOf(c), tag) && EncodeEntries([c] + stack, es) == Success(body)
    ensures At(tlv, pos, control) && At(tlv, pos + |control|, body)
    ensures At(tlv, pos + |control| + |body|, [END_OF_CONTAINER]) && |bs| == |control| + |body| + 1
  {
    control, body := ContainerBytes(stack, tag, c, es);
    AtSplit(tlv, pos, control + body, [END_OF_CONTAINER]);
    AtSplit(tlv, pos, control, body);
  }

  lemma {:induction false} SequenceAt(tlv: seq<Byte>, pos: nat, stack: seq<Container>, tag: Tag, vs: seq<Value>,
                                      bs: seq<Byte>)
    returns (control: seq<Byte>, body: seq<Byte>)
    requires Encode(stack, tag, Sequence(vs)) == Success(bs) && At(tlv, pos, bs)
    ensures Header(control, ARRAY, tag) && EncodeElems([Array] + stack, vs) == Success(body)
    ensures At(tlv, pos, control) && At(tlv, pos + |control|, body)
    ensures At(tlv, pos + |control| + |body|, [END_OF_CONTAINER]) && |bs| == |control| + |body| + 1
  {
    control := ControlAndTag(stack, ARRAY, tag, 0).value;
    body := EncodeElems([Array] + stack, vs).value;
    ControlBytes(stack, ARRAY, tag, 0);
    AtSplit(tlv, pos, control + body, [END_OF_CONTAINER]);
    AtSplit(tlv, pos, control, body);
  }

  lemma {:induction false} SequenceReadsBack(tlv: seq<Byte>, pos: nat, stack: seq<Container>, tag: Tag,
                                             vs: seq<Value>, bs: seq<Byte>)
    requires AllProperElems(vs)
    requires Encode(stack, tag, Sequence(vs)) == Success(bs) && At(tlv, pos, bs)
    ensures ReadsBack(tlv, pos, tag, Sequence(vs), |bs|)
    decreases ElemsSize(vs), 2
  {
    var control, body := SequenceAt(tlv, pos, stack, tag, vs, bs);
    ElemsReadBack(tlv, pos + |control|, [Array] + stack, vs, body);
    assert |bs| == |control| + |body| + 1;
    SequenceStep(tlv, pos, control, tag, vs, |body|);
  }

  lemma {:induction false} SequenceStep(tlv: seq<Byte>, pos: nat, control: seq<Byte>, tag: Tag, vs: seq<Value>, length: nat)
    requires Header(control, ARRAY, tag) && At(tlv, pos, control)
    requires ReadsElems(tlv, pos + |control|, vs, length)
    ensures ReadsBack(tlv, pos, tag, Sequence(vs), |control| + length + 1)
  {
    SequenceMeaning(vs);
    ArrayRead(tlv, pos, control, tag);
  }

  lemma {:induction false} SequenceMeaning(vs: seq<Value>)
    ensures HasList(Sequence(vs)) <==> SomeListElem(vs)
    ensures !SomeListElem(vs) ==> Meaning(Sequence(vs)) == DArray(Values(ElemItems(vs)))
  {
    if !SomeListElem(vs) {
      ElemItemsValues(vs);
    }
  }

  lemma {:induction false} StructureMeaning(stack: seq<Container>, es: seq<Entry>)
    requires Distinct(es) && EncodeEntries([Structure] + stack, es).Success?
    ensures HasList(Mapping(es)) <==> SomeList(es)
    ensures !SomeList(es) ==> Meaning(Mapping(es)) == DStruct(Store([], Items(es)))
  {
    if !SomeList(es) {
      StructureTags([Structure] + stack, es);
      FieldsOfItems(es);
      DistinctFields(es);
      assert [] + Fields(es) == Fields(es);
      StoreDistinct([], Items(es));
    }
  }

  lemma {:induction false} StructureReadsBack(tlv: seq<Byte>, pos: nat, stack: seq<Container>, tag: Tag,
                                              es: seq<Entry>, bs: seq<Byte>)
    requires Distinct(es) && AllProper(es)
    requires EncodeContainer(stack, tag, Structure, es) == Success(bs) && At(tlv, pos, bs)
    ensures ReadsBack(tlv, pos, tag, Mapping(es), |bs|)
    decreases EntriesSize(es), 2
  {
    var control, body := ContainerAt(tlv, pos, stack, tag, Structure, es, bs);
    EntriesReadBack(tlv, pos + |control|, [Structure] + stack, es, body);
    StructureStep(tlv, pos, control, tag, stack, es, body);
  }

  lemma {:induction false} StructureStep(tlv: seq<Byte>, pos: nat, control: seq<Byte>, tag: Tag, stack: seq<Container>,
                      es: seq<Entry>, body: seq<Byte>)
    requires Header(control, STRUCTURE, tag) && At(tlv, pos, control)
    requires Distinct(es) && EncodeEntries([Structure] + stack, es) == Success(body)
    requires ReadsEntries(tlv, pos + |control|, es, |body|)
    ensures ReadsBack(tlv, pos, tag, Mapping(es), |control| + |body| + 1)
  {
    StructureMeaning(stack, es);
    StructureRead(tlv, pos, control, tag);
  }

  lemma {:induction false} EntriesAt(tlv: seq<Byte>, pos: nat, stack: seq<Container>, es: seq<Entry>, bs: seq<Byte>)
    returns (first: seq<Byte>, rest: seq<Byte>)
    requires es != [] && EncodeEntries(stack, es) == Success(bs) && At(tlv, pos, bs) && At(tlv, pos + |bs|, [END_OF_CONTAINER])
    ensures Encode(stack, es[0].tag, es[0].value) == Success(first) && EncodeEntries(stack, es[1..]) == Success(rest)
    ensures At(tlv, pos, first) && At(tlv, pos + |first|, rest) && |bs| == |first| + |rest|
    ensures At(tlv, pos + |first| + |rest|, [END_OF_CONTAINER])
  {
    first := Encode(stack, es[0].tag, es[0].value).value;
    rest := EncodeEntries(stack, es[1..]).value;
    AtSplit(tlv, pos, first, rest);
  }

  /** Items `es` are read, up to and including the end marker. */
  ghost predicate ReadsEntries(tlv: seq<Byte>, pos: nat, es: seq<Entry>, length: nat) {
    ReadItems(tlv, pos) ==
    if SomeList(es) then Failure(UnsupportedType) else Success(Step(Items(es), pos + length + 1))
  }

  lemma {:induction false} EntriesStep(tlv: seq<Byte>, pos: nat, es: seq<Entry>, length: nat, restLength: nat)
    requires es != [] && ReadsBack(tlv, pos, es[0].tag, es[0].value, length)
    requires ReadsEntries(tlv, pos + length, es[1..], restLength)
    ensures ReadsEntries(tlv, pos, es, length + restLength)
  {
    if HasList(es[0].value) {
      ItemsFail(tlv, pos, UnsupportedType);
    } else {
      ItemsCons(tlv, pos, Item(TagRead(es[0].tag), Meaning(es[0].value)), pos + length);
    }
  }

  lemma {:induction false} EntriesParts(es: seq<Entry>)
    requires es != [] && AllProper(es)
    ensures Proper(es[0].value) && Size(es[0].value) < EntriesSize(es)
    ensures AllProper(es[1..]) && EntriesSize(es[1..]) < EntriesSize(es)
  {
  }

  lemma {:induction false} NoEntriesRead(tlv: seq<Byte>, pos: nat, stack: seq<Container>, bs: seq<Byte>)
    requires EncodeEntries(stack, []) == Success(bs) && At(tlv, pos + |bs|, [END_OF_CONTAINER])
    ensures ReadsEntries(tlv, pos, [], |bs|)
  {
    EndReads(tlv, pos);
  }

  lemma {:induction false} FirstEntryReadsBack(tlv: seq<Byte>, pos: nat, stack: seq<Container>, es: seq<Entry>,
                                               first: seq<Byte>, restLength: nat)
    requires es != [] && Proper(es[0].value)
    requires Encode(stack, es[0].tag, es[0].value) == Success(first) && At(tlv, pos, first)
    requires ReadsEntries(tlv, pos + |first|, es[1..], restLength)
    ensures ReadsEntries(tlv, pos, es, |first| + restLength)
    decreases Size(es[0].value), 2
  {
    ElementReadsBack(tlv, pos, stack, es[0].tag, es[0].value, first);
    EntriesStep(tlv, pos, es, |first|, restLength);
  }

  lemma {:induction false} SomeEntriesReadBack(tlv: seq<Byte>, pos: nat, stack: seq<Container>, es: seq<Entry>,
                                                first: seq<Byte>, rest: seq<Byte>)
    requires es != [] && Proper(es[0].value) && AllProper(es[1..])
    requires Encode(stack, es[0].tag, es[0].value) == Success(first) && EncodeEntries(stack, es[1..]) == Success(rest)
    requires At(tlv, pos, first) && At(tlv, pos + |first|, rest) && At(tlv, pos + |first| + |rest|, [END_OF_CONTAINER])
    requires Size(es[0].value) < EntriesSize(es) && EntriesSize(es[1..]) < EntriesSize(es)
    ensures ReadsEntries(tlv, pos, es, |first| + |rest|)
    decreases EntriesSize(es), 0
  {
    RestEntriesReadBack(tlv, pos + |first|, stack, es, rest);
    FirstEntryReadsBack(tlv, pos, stack, es, first, |rest|);
  }

  lemma {:induction false} RestEntriesReadBack(tlv: seq<Byte>, pos: nat, stack: seq<Container>, es: seq<Entry>,
                                               rest: seq<Byte>)
    requires es != [] && AllProper(es[1..]) && EntriesSize(es[1..]) < EntriesSize(es)
    requires EncodeEntries(stack, es[1..]) == Success(rest) && At(tlv, pos, rest) && At(tlv, pos + |rest|, [END_OF_CONTAINER])
    ensures ReadsEntries(tlv, pos, es[1..], |rest|)
    decreases EntriesSize(es[1..]), 2
  {
    EntriesReadBack(tlv, pos, stack, es[1..], rest);
  }

  lemma {:induction false} EntriesReadBack(tlv: seq<Byte>, pos: nat, stack: seq<Container>, es: seq<Entry>, bs: seq<Byte>)
    requires AllProper(es)
    requires EncodeEntries(stack, es) == Success(bs) && At(tlv, pos, bs) && At(tlv, pos + |bs|, [END_OF_CONTAINER])
    ensures ReadsEntries(tlv, pos, es, |bs|)
    decreases EntriesSize(es), 1
  {
    if es == [] {
      NoEntriesRead(tlv, pos, stack, bs);
    } else {
      EntriesParts(es);
      var first, rest := EntriesAt(tlv, pos, stack, es, bs);
      SomeEntriesReadBack(tlv, pos, stack, es, first, rest);
    }
  }

  lemma {:induction false} ElemsAt(tlv: seq<Byte>, pos: nat, stack: seq<Container>, vs: seq<Value>, bs: seq<Byte>)
    returns (first: seq<Byte>, rest: seq<Byte>)
    requires vs != [] && EncodeElems(stack, vs) == Success(bs) && At(tlv, pos, bs) && At(tlv, pos + |bs|, [END_OF_CONTAINER])
    ensures Encode(stack, Anonymous, vs[0]) == Success(first) && EncodeElems(stack, vs[1..]) == Success(rest)
    ensures At(tlv, pos, first) && At(tlv, pos + |first|, rest) && |bs| == |first| + |rest|
    ensures At(tlv, pos + |first| + |rest|, [END_OF_CONTAINER])
  {
    first := Encode(stack, Anonymous, vs[0]).value;
    rest := EncodeElems(stack, vs[1..]).value;
    AtSplit(tlv, pos, first, rest);
  }

  ghost predicate ReadsElems(tlv: seq<Byte>, pos: nat, vs: seq<Value>, length: nat) {
    ReadItems(tlv, pos) ==
    if SomeListElem(vs) then Failure(UnsupportedType) else Success(Step(ElemItems(vs), pos + length + 1))
  }

  lemma {:induction false} ElemsStep(tlv: seq<Byte>, pos: nat, vs: seq<Value>, length: nat, restLength: nat)
    requires vs != [] && ReadsBack(tlv, pos, Anonymous, vs[0], length)
    requires ReadsElems(tlv, pos + length, vs[1..], restLength)
    ensures ReadsElems(tlv, pos, vs, length + restLength)
  {
    if HasList(vs[0]) {
      ItemsFail(tlv, pos, UnsupportedType);
    } else {
      ItemsCons(tlv, pos, Item(None, Meaning(vs[0])), pos + length);
    }
  }

  lemma {:induction false} ElemsParts(vs: seq<Value>)
    requires vs != [] && AllProperElems(vs)
    ensures Proper(vs[0]) && Size(vs[0]) < ElemsSize(vs)
    ensures AllProperElems(vs[1..]) && ElemsSize(vs[1..]) < ElemsSize(vs)
  {
  }

  lemma {:induction false} NoElemsRead(tlv: seq<Byte>, pos: nat, stack: seq<Container>, bs: seq<Byte>)
    requires EncodeElems(stack, []) == Success(bs) && At(tlv, pos + |bs|, [END_OF_CONTAINER])
    ensures ReadsElems(tlv, pos, [], |bs|)
  {
    EndReads(tlv, pos);
  }

  lemma {:induction false} FirstElemReadsBack(tlv: seq<Byte>, pos: nat, stack: seq<Container>, vs: seq<Value>,
                                              first: seq<Byte>, restLength: nat)
    requires vs != [] && Proper(vs[0])
    requires Encode(stack, Anonymous, vs[0]) == Success(first) && At(tlv, pos, first)
    requires ReadsElems(tlv, pos + |first|, vs[1..], restLength)
    ensures ReadsElems(tlv, pos, vs, |first| + restLength)
    decreases Size(vs[0]), 2
  {
    ElementReadsBack(tlv, pos, stack, Anonymous, vs[0], first);
    ElemsStep(tlv, pos, vs, |first|, restLength);
  }

  lemma {:induction false} SomeElemsReadBack(tlv: seq<Byte>, pos: nat, stack: seq<Container>, vs: seq<Value>,
                                              first: seq<Byte>, rest: seq<Byte>)
    requires vs != [] && Proper(vs[0]) && AllProperElems(vs[1..])
    requires Encode(stack, Anonymous, vs[0]) == Success(first) && EncodeElems(stack, vs[1..]) == Success(rest)
    requires At(tlv, pos, first) && At(tlv, pos + |first|, rest) && At(tlv, pos + |first| + |rest|, [END_OF_CONTAINER])
    requires Size(vs[0]) < ElemsSize(vs) && ElemsSize(vs[1..]) < ElemsSize(vs)
    ensures ReadsElems(tlv, pos, vs, |first| + |rest|)
    decreases ElemsSize(vs), 0
  {
    ElemsReadBack(tlv, pos + |first|, stack, vs[1..], rest);
    FirstElemReadsBack(tlv, pos, stack, vs, first, |rest|);
  }

  lemma {:induction false} ElemsReadBack(tlv: seq<Byte>, pos: nat, stack: seq<Container>, vs: seq<Value>, bs: seq<Byte>)
    requires AllProperElems(vs)
    requires EncodeElems(stack, vs) == Success(bs) && At(tlv, pos, bs) && At(tlv, pos + |bs|, [END_OF_CONTAINER])
    ensures ReadsElems(tlv, pos, vs, |bs|)
    decreases ElemsSize(vs), 1
  {
    if vs == [] {
      NoElemsRead(tlv, pos, stack, bs);
    } else {
      ElemsParts(vs);
      var first, rest := ElemsAt(tlv, pos, stack, vs, bs);
      SomeElemsReadBack(tlv, pos, stack, vs, first, rest);
    }
  }

  /** `put(None, v)` on a fresh writer, then `get()`: with no TLVList in `v` the result is
      {"Any": v} and every byte is consumed; with one, the reader raises. */
  lemma {:induction false} RoundTrip(v: Value, bs: seq<Byte>)
    requires Proper(v) && Encode([], Anonymous, v) == Success(bs)
    ensures Get(bs) ==
            if HasList(v) then Failure(UnsupportedType)
            else Success(Step([Field(Any, Meaning(v))], |bs|))
  {
    assert bs[0..|bs|] == bs;
    AtWhole(bs, 0, bs);
    ElementReadsBack(bs, 0, [], Anonymous, v, bs);
    if HasList(v) {
      ItemsFail(bs, 0, UnsupportedType);
    } else {
      var item := Item(None, Meaning(v));
      ItemsCons(bs, 0, item, |bs|);
      assert [item] + [] == [item];
      assert Store([], [item]) == Store(SetKey([], Any, Meaning(v)), [item][1..]);
    }
  }
}
