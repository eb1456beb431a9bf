/** Which values the writer accepts, and what sorting does to a decoded structure. */
module TlvAccepts {
  import opened Wrappers
  import opened TlvFormat
  import opened TlvWriter
  import opened TlvReader
  import opened TlvRoundTrip

  predicate TagAllowed(stack: seq<Container>, tag: Tag) {
    match tag
    case Anonymous => stack == [] || stack[0] != Structure
    case Context(n) => 0 <= n < 256 && stack != [] && stack[0] != Array
    case Profile(_, _) => false
  }

  /** Every tag suits its container, every integer fits 64 bits. */
  predicate Encodable(stack: seq<Container>, tag: Tag, v: Value)
    decreases v
  {
    TagAllowed(stack, tag) &&
    match v
    case EnumMember(n) => 0 <= n < 0x1_0000_0000_0000_0000
    case UInt(n) => n < 0x1_0000_0000_0000_0000
    case Int(n) => -0x8000_0000_0000_0000 <= n < 0x8000_0000_0000_0000
    case Text(utf8) => |utf8| < 0x1_0000_0000_0000_0000
    case Bytes(content) => |content| < 0x1_0000_0000_0000_0000
    case Dict(es) => forall e | e in es :: Encodable([Structure] + stack, e.tag, e.value)
    case Mapping(es) => forall e | e in es :: Encodable([Structure] + stack, e.tag, e.value)
    case TlvList(es) => forall e | e in es :: Encodable([Path] + stack, e.tag, e.value)
    case Sequence(vs) => forall w | w in vs :: Encodable([Array] + stack, Anonymous, w)
    case _ => true
  }

  predicate AllEncodable(stack: seq<Container>, es: seq<Entry>) {
    forall e | e in es :: Encodable(stack, e.tag, e.value)
  }

  lemma {:induction false} ControlAccepts(stack: seq<Container>, elementType: Byte, tag: Tag, width: nat)
    requires elementType < END_OF_CONTAINER
    ensures ControlAndTag(stack, elementType, tag, width).Success? <==> TagAllowed(stack, tag)
  {
  }

  lemma {:induction false} ScalarAccepts(stack: seq<Container>, tag: Tag, v: Value)
    requires !v.Dict? && !v.Mapping? && !v.TlvList? && !v.Sequence?
    ensures Encode(stack, tag, v).Success? <==> Encodable(stack, tag, v)
  {
    match v
    case Null => ControlAccepts(stack, NULL, tag, 0);
    case Bool(b) => ControlAccepts(stack, if b then BOOLEAN + 1 else BOOLEAN, tag, 0);
    case EnumMember(n) => if 0 <= n <= UINT64_MAX { ControlAccepts(stack, UNSIGNED_INTEGER, tag, UnsignedWidth(n)); }
    case UInt(n) => ControlAccepts(stack, UNSIGNED_INTEGER, tag, UnsignedWidth(n));
    case Int(n) => ControlAccepts(stack, SIGNED_INTEGER, tag, SignedWidth(n));
    case Float32(f) => ControlAccepts(stack, FLOATING_POINT, tag, 4);
    case Float64(d) => ControlAccepts(stack, FLOATING_POINT, tag, 8);
    case Text(utf8) => ControlAccepts(stack, UTF8_STRING, tag, UnsignedWidth(|utf8|));
    case Bytes(content) => ControlAccepts(stack, BYTE_STRING, tag, UnsignedWidth(|content|));
  }

  /** `put` succeeds on exactly the encodable values; every other one raises. */
  lemma {:induction false} WriterAccepts(stack: seq<Container>, tag: Tag, v: Value)
    ensures Encode(stack, tag, v).Success? <==> Encodable(stack, tag, v)
    decreases Size(v), 1
  {
    match v
    case Dict(es) =>
      SortedSize(es);
      SortedPermutes(es);
      ControlAccepts(stack, STRUCTURE, tag, 0);
      EntriesAccept([Structure] + stack, Sorted(es));
      assert AllEncodable([Structure] + stack, es) <==> AllEncodable([Structure] + stack, Sorted(es));
    case Mapping(es) =>
      ControlAccepts(stack, STRUCTURE, tag, 0);
      EntriesAccept([Structure] + stack, es);
    case TlvList(es) =>
      ControlAccepts(stack, PATH, tag, 0);
      EntriesAccept([Path] + stack, es);
    case Sequence(vs) =>
      ControlAccepts(stack, ARRAY, tag, 0);
      ElemsAccept([Array] + stack, vs);
    case _ => ScalarAccepts(stack, tag, v);
  }

  lemma {:induction false} EntriesAccept(stack: seq<Container>, es: seq<Entry>)
    ensures EncodeEntries(stack, es).Success? <==> AllEncodable(stack, es)
    decreases EntriesSize(es), 0
  {
    if es != [] {
      WriterAccepts(stack, es[0].tag, es[0].value);
      EntriesAccept(stack, es[1..]);
      assert forall e :: e in es <==> e == es[0] || e in es[1..];
    }
  }

  lemma {:induction false} ElemsAccept(stack: seq<Container>, vs: seq<Value>)
    ensures EncodeElems(stack, vs).Success? <==> forall w | w in vs :: Encodable(stack, Anonymous, w)
    decreases ElemsSize(vs), 0
  {
    if vs != [] {
      WriterAccepts(stack, Anonymous, vs[0]);
      ElemsAccept(stack, vs[1..]);
      assert forall w :: w in vs <==> w == vs[0] || w in vs[1..];
    }
  }

  /** d.get(key) */
  function Lookup(fs: seq<Field>, key: Key): Option<Decoded> {
    if fs == [] then None
    else if fs[0].key == key then Some(fs[0].value)
    else Lookup(fs[1..], key)
  }

  lemma {:induction false} LookupField(es: seq<Entry>, e: Entry)
    requires !SomeList(es) && ContextTags(es) && Distinct(es) && e in es
    ensures !HasList(e.value)
    ensures Lookup(Fields(es), KeyOf(TagRead(e.tag))) == Some(Meaning(e.value))
  {
    if e != es[0] {
      assert e in es[1..] && es[0] in es;
      LookupField(es[1..], e);
      assert Fields(es)[1..] == Fields(es[1..]);
    }
  }

  lemma {:induction false} LookupAbsent(fs: seq<Field>, key: Key)
    ensures Lookup(fs, key).None? <==> forall f | f in fs :: f.key != key
  {
    if fs != [] {
      LookupAbsent(fs[1..], key);
      assert forall f :: f in fs <==> f == fs[0] || f in fs[1..];
    }
  }

  /** As Python dicts, the structure read back from a plain dict and the one written are
      equal: the writer's sort changes only the order. */
  lemma {:induction false} DictUpToOrder(es: seq<Entry>, key: Key)
    requires !SomeList(es) && ContextTags(es) && Distinct(es)
    ensures !HasList(Dict(es)) && Meaning(Dict(es)).DStruct?
    ensures Lookup(Meaning(Dict(es)).fields, key) == Lookup(Fields(es), key)
  {
    SortedPermutes(es);
    SortedKeeps(es);
    SortedDistinct(es);
    SortedSize(es);
    var fs := Fields(es);
    var sorted := Fields(Sorted(es));
    LookupAbsent(fs, key);
    LookupAbsent(sorted, key);
    if f :| f in fs && f.key == key {
      var e := FieldFrom(es, f);
      LookupField(es, e);
      LookupField(Sorted(es), e);
    } else if f :| f in sorted && f.key == key {
      var e := FieldFrom(Sorted(es), f);
      LookupField(es, e);
      LookupField(Sorted(es), e);
    }
  }

  // ---- a list is written but not read -----------------------------------------------------------

  /** An empty TLVList in a structure, under tag 1. */
  const LISTED: Value := Dict([Entry(Context(1), TlvList([]))])

  lemma {:induction false} ListedEncodable()
    ensures Encodable([], Anonymous, LISTED) && Proper(LISTED) && HasList(LISTED)
  {
    var es := [Entry(Context(1), TlvList([]))];
    assert es[1..] == [] && AllProper(es[1..]);
    assert AllProper(es) && Distinct(es) && SomeList(es);
  }

  /** `put` writes it and `get` refuses what was written. */
  lemma {:induction false} ListWrittenNotRead()
    ensures Encode([], Anonymous, LISTED).Success?
    ensures Get(Encode([], Anonymous, LISTED).value) == Failure(UnsupportedType)
  {
    ListedEncodable();
    WriterAccepts([], Anonymous, LISTED);
    RoundTrip(LISTED, Encode([], Anonymous, LISTED).value);
  }
}
