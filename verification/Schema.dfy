/** The descriptor layer of ClusterObjects: label dicts to TLV structures and back. */
module Schema {
  import opened Wrappers
  import opened TlvFormat
  import opened TlvWriter
  import opened TlvReader

  // ---- types and values -------------------------------------------------------------

  /** The Python type annotated on a field: uint, int, ..., or a MatterIntEnum with the
      values of its members and its kUnknownEnumValue. */
  datatype Leaf =
    | UIntLeaf | IntLeaf | BoolLeaf | Float32Leaf | FloatLeaf | StrLeaf | BytesLeaf
    | EnumLeaf(members: set<nat>, unknown: nat)

  datatype Elem = LeafElem(leaf: Leaf) | StructElem(descriptor: Descriptor)

  /** The annotation taken apart: X, List[X], with or without Nullable and None in a Union. */
  datatype FieldType = FieldType(elem: Elem, isList: bool, nullable: bool, optional: bool)

  datatype FieldDescriptor = FieldDescriptor(name: string, tag: Option<int>, typ: FieldType)

  datatype Descriptor = Descriptor(fields: seq<FieldDescriptor>)

  /** A value in a label dict. */
  datatype Data =
    | NullValue
    | NoneValue
    | UIntData(u: nat)
    | IntData(n: int)
    | BoolData(b: bool)
    | Float32Data(f: seq<Byte>)
    | FloatData(d: seq<Byte>)
    | StrData(utf8: seq<Byte>)
    | BytesData(content: seq<Byte>)
    | EnumData(member: nat)
    | ListData(elems: seq<Data>)
    | DictData(entries: map<DictKey, Data>)
    | RawData(value: Decoded)     // kept as the reader had it, under a tag no field has

  datatype DictKey = Label(name: string) | UnknownTag(key: Key)

  // ---- label dict to TLV ---------------------------------------------------------------

  /** `elementType(val)` for numbers; text, byte and float constructors take their own kind. */
  function Coerce(leaf: Leaf, val: Data): Option<Value> {
    match (leaf, val)
    case (UIntLeaf, UIntData(u)) => Some(UInt(u))
    case (UIntLeaf, IntData(n)) => if n >= 0 then Some(UInt(n)) else None
    case (UIntLeaf, EnumData(n)) => Some(UInt(n))
    case (UIntLeaf, BoolData(b)) => Some(UInt(if b then 1 else 0))
    case (IntLeaf, UIntData(u)) => Some(Int(u))
    case (IntLeaf, IntData(n)) => Some(Int(n))
    case (IntLeaf, EnumData(n)) => Some(Int(n))
    case (IntLeaf, BoolData(b)) => Some(Int(if b then 1 else 0))
    case (BoolLeaf, BoolData(b)) => Some(Bool(b))
    case (BoolLeaf, UIntData(u)) => Some(Bool(u != 0))
    case (BoolLeaf, IntData(n)) => Some(Bool(n != 0))
    case (Float32Leaf, Float32Data(f)) => if |f| == 4 then Some(Float32(f)) else None
    case (FloatLeaf, FloatData(d)) => if |d| == 8 then Some(Float64(d)) else None
    case (StrLeaf, StrData(utf8)) => Some(Text(utf8))
    case (BytesLeaf, BytesData(content)) => Some(Bytes(content))
    case (EnumLeaf(members, unknown), EnumData(n)) => Some(EnumMember(if n in members then n else unknown))
    case (EnumLeaf(members, unknown), UIntData(u)) => Some(EnumMember(if u in members then u else unknown))
    case (EnumLeaf(members, unknown), IntData(n)) =>
      Some(EnumMember(if n >= 0 && (n as nat) in members then n else unknown))
    case _ => None
  }

  /** _PutSingleElementToTLV: the value written for one element; None where it raises. */
  function SingleValue(elem: Elem, val: Data): Option<Value>
    decreases elem, 0
  {
    match elem
    case StructElem(descriptor) =>
      if !val.DictData? then None
      else
        var es := FieldEntries(descriptor.fields, val.entries);
        if es.None? then None else Some(Mapping(es.value))
    case LeafElem(leaf) => Coerce(leaf, val)
  }

  function SingleValues(elem: Elem, vals: seq<Data>): Option<seq<Value>>
    decreases elem, 1, vals
  {
    if vals == [] then Some([])
    else
      var first := SingleValue(elem, vals[0]);
      var rest := SingleValues(elem, vals[1..]);
      if first.None? || rest.None? then None else Some([first.value] + rest.value)
  }

  /** PutFieldToTLV: the value written, Some(None) where an optional field is left out,
      and None where it raises. */
  function FieldValue(f: FieldDescriptor, val: Data): Option<Option<Value>>
    decreases f
  {
    if val.NullValue? then (if f.typ.nullable then Some(Some(Null)) else None)
    else if val.NoneValue? then (if f.typ.optional then Some(None) else None)
    else if !val.ListData? then
      if f.typ.isList then None
      else
        var v := SingleValue(f.typ.elem, val);
        if v.None? then None else Some(v)
    else if !f.typ.isList then None
    else
      var vs := SingleValues(f.typ.elem, val.elems);
      if vs.None? then None else Some(Some(Sequence(vs.value)))
  }

  /** data.get(label, None) */
  function Find(entries: map<DictKey, Data>, name: string): Data {
    if Label(name) in entries then entries[Label(name)] else NoneValue
  }

  function TagOf(f: FieldDescriptor): Tag {
    match f.tag
    case None => Anonymous
    case Some(n) => Context(n)
  }

  /** DictToTLVWithWriter's loop: the entries written, in field order. */
  function FieldEntries(fields: seq<FieldDescriptor>, entries: map<DictKey, Data>): Option<seq<Entry>>
    decreases fields
  {
    if fields == [] then Some([])
    else
      assert fields decreases to fields[0];
      var first := FieldValue(fields[0], Find(entries, fields[0].name));
      var rest := FieldEntries(fields[1..], entries);
      if first.None? || rest.None? then None
      else if first.value.None? then rest
      else Some([Entry(TagOf(fields[0]), first.value.value)] + rest.value)
  }

  /** The bytes of a possibly refused value. */
  function Written(stack: seq<Container>, tag: Tag, v: Option<Value>): Option<seq<Byte>> {
    if v.None? then None
    else
      match Encode(stack, tag, v.value)
      case Success(bs) => Some(bs)
      case Failure(_) => None
  }

  function WrittenEntries(stack: seq<Container>, es: Option<seq<Entry>>): Option<seq<Byte>> {
    if es.None? then None
    else
      match EncodeEntries(stack, es.value)
      case Success(bs) => Some(bs)
      case Failure(_) => None
  }

  /** The bytes of DictToTLV; None where it raises. */
  function StructBytes(d: Descriptor, entries: map<DictKey, Data>): Option<seq<Byte>> {
    Written([], Anonymous, SingleValue(StructElem(d), DictData(entries)))
  }

  // ---- TLV to label dict -----------------------------------------------------------------

  /** GetFieldByTag: the first field with that tag. */
  function FieldByTag(fields: seq<FieldDescriptor>, key: Key): (r: Option<FieldDescriptor>)
    ensures r.Some? ==> r.value in fields && key.Tagged? && r.value.tag == Some(key.number)
    ensures r.None? ==> forall f | f in fields :: !(key.Tagged? && f.tag == Some(key.number))
  {
    if fields == [] then None
    else if key.Tagged? && fields[0].tag == Some(key.number) then Some(fields[0])
    else FieldByTag(fields[1..], key)
  }

  /** isinstance(value, elementType), enums first made from the value. */
  function ConvertLeaf(leaf: Leaf, value: Decoded): Option<Data> {
    match (leaf, value)
    case (EnumLeaf(members, unknown), DUInt(u)) => Some(EnumData(if u in members then u else unknown))
    case (EnumLeaf(members, unknown), DInt(n)) =>
      Some(EnumData(if n >= 0 && (n as nat) in members then n else unknown))
    case (EnumLeaf(members, unknown), DBool(b)) =>
      var n := if b then 1 else 0;
      Some(EnumData(if n in members then n else unknown))
    case (EnumLeaf(members, unknown), _) => Some(EnumData(unknown))
    case (UIntLeaf, DUInt(u)) => Some(UIntData(u))
    case (IntLeaf, DInt(n)) => Some(IntData(n))
    case (IntLeaf, DUInt(u)) => Some(UIntData(u))
    case (IntLeaf, DBool(b)) => Some(BoolData(b))
    case (BoolLeaf, DBool(b)) => Some(BoolData(b))
    case (Float32Leaf, DFloat32(f)) => Some(Float32Data(f))
    case (FloatLeaf, DFloat32(f)) => Some(Float32Data(f))
    case (FloatLeaf, DFloat64(d)) => Some(FloatData(d))
    case (StrLeaf, DText(utf8)) => Some(StrData(utf8))
    case (BytesLeaf, DBytes(content)) => Some(BytesData(content))
    case _ => None
  }

  /** _ConvertNonArray; None where it raises. */
  function ConvertNonArray(elem: Elem, value: Decoded): Option<Data>
    decreases elem, 0
  {
    match elem
    case LeafElem(leaf) => ConvertLeaf(leaf, value)
    case StructElem(descriptor) =>
      if !value.DStruct? then None
      else
        var entries := LabelDict(descriptor, map[], value.fields);
        if entries.None? then None else Some(DictData(entries.value))
  }

  function ConvertAll(elem: Elem, values: seq<Decoded>): Option<seq<Data>>
    decreases elem, 1, values
  {
    if values == [] then Some([])
    else
      var first := ConvertNonArray(elem, values[0]);
      var rest := ConvertAll(elem, values[1..]);
      if first.None? || rest.None? then None else Some([first.value] + rest.value)
  }

  /** What iterating over a value gives: a list's elements, a dict's keys, the ints of bytes. */
  function Iterate(value: Decoded): Option<seq<Decoded>> {
    match value
    case DArray(elems) => Some(elems)
    case DStruct(fields) =>
      Some(seq(|fields|, i requires 0 <= i < |fields| =>
        match fields[i].key case Any => DText([65, 110, 121]) case Tagged(n) => DInt(n)))
    case DBytes(content) => Some(seq(|content|, i requires 0 <= i < |content| => DInt(content[i])))
    case _ => None
  }

  /** One tag's value for TagDictToLabelDict. */
  function ConvertField(f: FieldDescriptor, value: Decoded): Option<Data>
    decreases f
  {
    if value.DNull? then Some(NullValue)
    else if f.typ.isList then
      var values := Iterate(value);
      if values.None? then None
      else
        var elems := ConvertAll(f.typ.elem, values.value);
        if elems.None? then None else Some(ListData(elems.value))
    else ConvertNonArray(f.typ.elem, value)
  }

  /** TagDictToLabelDict's loop: `ret` filled from the remaining (tag, value) pairs. */
  function LabelDict(d: Descriptor, ret: map<DictKey, Data>, items: seq<Field>): Option<map<DictKey, Data>>
    decreases d, items
  {
    if items == [] then Some(ret)
    else
      match FieldByTag(d.fields, items[0].key)
      case None => LabelDict(d, ret[UnknownTag(items[0].key) := RawData(items[0].value)], items[1..])
      case Some(f) =>
        assert d decreases to f;
        var v := ConvertField(f, items[0].value);
        if v.None? then None else LabelDict(d, ret[Label(f.name) := v.value], items[1..])
  }

  /** The dict of TLVToDict; None where it raises. */
  function StructDict(d: Descriptor, tlv: seq<Byte>): Option<map<DictKey, Data>> {
    match Get(tlv)
    case Failure(_) => None
    case Success(s) =>
      match AnyOf(s.value)
      case None => Some(map[])
      case Some(DStruct(fields)) => LabelDict(d, map[], fields)
      case Some(_) => None
  }

  /** .get("Any") */
  function AnyOf(fields: seq<Field>): Option<Decoded> {
    if fields == [] then None
    else if fields[0].key == Any then Some(fields[0].value)
    else AnyOf(fields[1..])
  }

  // ---- the code, step by step ---------------------------------------------------------------

  /** `bs` was appended, or the call raised. */
  predicate Put(before: seq<Byte>, now: seq<Byte>, bs: Option<seq<Byte>>, ok: bool) {
    (ok <==> bs.Some?) && (ok ==> now == before + bs.value)
  }

  method PutSingleElement(tag: Tag, val: Data, elem: Elem, writer: TLVWriter) returns (ok: bool)
    modifies writer
    ensures ok ==> writer.containerStack == old(writer.containerStack)
    ensures Put(old(writer.encoding), writer.encoding,
                Written(old(writer.containerStack), tag, SingleValue(elem, val)), ok)
    decreases elem, 0
  {
    match elem
    case StructElem(descriptor) =>
      if !val.DictData? { return false; }
      ok := DictToTLVWithWriter(descriptor, tag, val.entries, writer);
    case LeafElem(leaf) =>
      var v := Coerce(leaf, val);
      if v.None? { return false; }
      var r := writer.Put(tag, v.value);
      ok := r.Pass?;
  }

  method PutField(f: FieldDescriptor, val: Data, writer: TLVWriter) returns (ok: bool)
    modifies writer
    ensures ok ==> writer.containerStack == old(writer.containerStack)
    ensures Put(old(writer.encoding), writer.encoding, WrittenField(old(writer.containerStack), f, val), ok)
    decreases f, 1
  {
    if val.NullValue? {
      if !f.typ.nullable { return false; }
      var r := writer.Put(TagOf(f), Null);
      return r.Pass?;
    } else if val.NoneValue? {
      return f.typ.optional;
    } else if !val.ListData? {
      if f.typ.isList { return false; }
      ok := PutSingleElement(TagOf(f), val, f.typ.elem, writer);
    } else if !f.typ.isList {
      return false;
    } else {
      ok := PutList(f, val.elems, writer);
    }
  }

  method PutList(f: FieldDescriptor, vals: seq<Data>, writer: TLVWriter) returns (ok: bool)
    modifies writer
    ensures ok ==> writer.containerStack == old(writer.containerStack)
    ensures var vs := SingleValues(f.typ.elem, vals);
            Put(old(writer.encoding), writer.encoding,
                Written(old(writer.containerStack), TagOf(f), if vs.None? then None else Some(Sequence(vs.value))), ok)
    decreases f, 0
  {
    ghost var stack := writer.containerStack;
    SequenceWritten(stack, TagOf(f), SingleValues(f.typ.elem, vals));
    var r := writer.StartContainer(TagOf(f), Array);
    if r.Fail? { return false; }
    ok := PutElems(f.typ.elem, vals, writer);
    if ok { r := writer.EndContainer(); }
  }

  method PutElems(elem: Elem, vals: seq<Data>, writer: TLVWriter) returns (ok: bool)
    modifies writer
    ensures ok ==> writer.containerStack == old(writer.containerStack)
    ensures Put(old(writer.encoding), writer.encoding,
                WrittenElems(old(writer.containerStack), SingleValues(elem, vals)), ok)
    decreases elem, 1
  {
    ghost var stack := writer.containerStack;
    assert vals[0..] == vals;
    for i := 0 to |vals|
      invariant writer.containerStack == stack
      invariant Prepend(old(writer.encoding), WrittenElems(stack, SingleValues(elem, vals))) ==
                Prepend(writer.encoding, WrittenElems(stack, SingleValues(elem, vals[i..])))
    {
      ElemsLeft(stack, elem, vals, i, writer.encoding);
      ok := PutSingleElement(Anonymous, vals[i], elem, writer);
      if !ok { return false; }
    }
    assert writer.encoding + [] == writer.encoding;
    return true;
  }

  method DictToTLVWithWriter(d: Descriptor, tag: Tag, entries: map<DictKey, Data>, writer: TLVWriter) returns (ok: bool)
    modifies writer
    ensures ok ==> writer.containerStack == old(writer.containerStack)
    ensures Put(old(writer.encoding), writer.encoding,
                Written(old(writer.containerStack), tag, SingleValue(StructElem(d), DictData(entries))), ok)
    decreases d, 1
  {
    MappingWritten(writer.containerStack, tag, FieldEntries(d.fields, entries));
    var r := writer.StartContainer(tag, Structure);
    if r.Fail? { return false; }
    ok := PutFields(d, entries, writer);
    if ok { r := writer.EndContainer(); }
  }

  /** The loop over the descriptor's fields. */
  method PutFields(d: Descriptor, entries: map<DictKey, Data>, writer: TLVWriter) returns (ok: bool)
    modifies writer
    ensures ok ==> writer.containerStack == old(writer.containerStack)
    ensures Put(old(writer.encoding), writer.encoding,
                WrittenEntries(old(writer.containerStack), FieldEntries(d.fields, entries)), ok)
    decreases d, 0
  {
    ghost var stack := writer.containerStack;
    assert d.fields[0..] == d.fields;
    for i := 0 to |d.fields|
      invariant writer.containerStack == stack
      invariant Prepend(old(writer.encoding), WrittenEntries(stack, FieldEntries(d.fields, entries))) ==
                Prepend(writer.encoding, WrittenEntries(stack, FieldEntries(d.fields[i..], entries)))
    {
      FieldsLeft(stack, d.fields, entries, i, writer.encoding);
      ok := PutField(d.fields[i], Find(entries, d.fields[i].name), writer);
      if !ok { return false; }
    }
    assert writer.encoding + [] == writer.encoding;
    return true;
  }

  /** A container's bytes: control, body, end marker; none if any of them is refused. */
  function Framed(control: Encoding, body: Option<seq<Byte>>): Option<seq<Byte>> {
    if control.Failure? || body.None? then None else Some(control.value + body.value + [END_OF_CONTAINER])
  }

  lemma {:induction false} MappingWritten(stack: seq<Container>, tag: Tag, es: Option<seq<Entry>>)
    ensures Written(stack, tag, if es.None? then None else Some(Mapping(es.value))) ==
            Framed(ControlAndTag(stack, STRUCTURE, tag, 0), WrittenEntries([Structure] + stack, es))
  {
    if es.Some? {
      assert Encode(stack, tag, Mapping(es.value)) == EncodeContainer(stack, tag, Structure, es.value);
    }
  }

  lemma {:induction false} SequenceWritten(stack: seq<Container>, tag: Tag, vs: Option<seq<Value>>)
    ensures Written(stack, tag, if vs.None? then None else Some(Sequence(vs.value))) ==
            Framed(ControlAndTag(stack, ARRAY, tag, 0), WrittenElems([Array] + stack, vs))
  {
  }

  method DictToTLV(d: Descriptor, entries: map<DictKey, Data>) returns (r: Option<seq<Byte>>)
    ensures r == StructBytes(d, entries)
  {
    var writer := new TLVWriter();
    var ok := DictToTLVWithWriter(d, Anonymous, entries, writer);
    ghost var bs := StructBytes(d, entries);
    assert bs.Some? ==> [] + bs.value == bs.value;
    return if ok then Some(writer.encoding) else None;
  }

  method TagDictToLabelDict(d: Descriptor, tlvData: seq<Field>) returns (r: Option<map<DictKey, Data>>)
    ensures r == LabelDict(d, map[], tlvData)
  {
    var ret: map<DictKey, Data> := map[];
    assert tlvData[0..] == tlvData;
    for i := 0 to |tlvData|
      invariant LabelDict(d, map[], tlvData) == LabelDict(d, ret, tlvData[i..])
    {
      assert tlvData[i..][0] == tlvData[i] && tlvData[i..][1..] == tlvData[i + 1..];
      var f := FieldByTag(d.fields, tlvData[i].key);
      if f.None? {
        ret := ret[UnknownTag(tlvData[i].key) := RawData(tlvData[i].value)];
      } else {
        var v := ConvertField(f.value, tlvData[i].value);
        if v.None? { return None; }
        ret := ret[Label(f.value.name) := v.value];
      }
    }
    return Some(ret);
  }

  method TLVToDict(d: Descriptor, tlv: seq<Byte>) returns (r: Option<map<DictKey, Data>>)
    ensures r == StructDict(d, tlv)
  {
    var reader := new TLVReader(tlv);
    var top := reader.GetAll();
    if top.Failure? { return None; }
    match AnyOf(top.value)
    case None => return Some(map[]);
    case Some(DStruct(fields)) => r := TagDictToLabelDict(d, fields);
    case Some(_) => return None;
  }

  function Prepend(done: seq<Byte>, rest: Option<seq<Byte>>): Option<seq<Byte>> {
    match rest
    case None => None
    case Some(bs) => Some(done + bs)
  }

  function WrittenElems(stack: seq<Container>, vs: Option<seq<Value>>): Option<seq<Byte>> {
    if vs.None? then None
    else
      match EncodeElems(stack, vs.value)
      case Success(bs) => Some(bs)
      case Failure(_) => None
  }

  /** One more element written: the first of those left. */
  lemma {:induction false} ElemsLeft(stack: seq<Container>, elem: Elem, vals: seq<Data>, i: nat, done: seq<Byte>)
    requires i < |vals|
    ensures var first := Written(stack, Anonymous, SingleValue(elem, vals[i]));
            Prepend(done, WrittenElems(stack, SingleValues(elem, vals[i..]))) ==
            if first.None? then None
            else Prepend(done + first.value, WrittenElems(stack, SingleValues(elem, vals[i + 1..])))
  {
    var rest := vals[i..];
    assert rest[0] == vals[i] && rest[1..] == vals[i + 1..];
    var v := SingleValue(elem, vals[i]);
    var vs := SingleValues(elem, rest[1..]);
    if v.Some? && vs.Some? {
      ElemsStep(stack, done, v.value, vs.value);
    }
  }

  lemma {:induction false} ElemsStep(stack: seq<Container>, done: seq<Byte>, v: Value, vs: seq<Value>)
    ensures var first := Written(stack, Anonymous, Some(v));
            Prepend(done, WrittenElems(stack, Some([v] + vs))) ==
            if first.None? then None else Prepend(done + first.value, WrittenElems(stack, Some(vs)))
  {
    assert ([v] + vs)[1..] == vs;
    var first := Encode(stack, Anonymous, v);
    var rest := EncodeElems(stack, vs);
    if first.Success? && rest.Success? {
      assert done + (first.value + rest.value) == done + first.value + rest.value;
    }
  }

  /** What PutField appends. */
  function WrittenField(stack: seq<Container>, f: FieldDescriptor, val: Data): Option<seq<Byte>> {
    var v := FieldValue(f, val);
    if v == Some(None) then Some([]) else Written(stack, TagOf(f), if v.None? then None else v.value)
  }

  /** One more field written: the first of those left. */
  lemma {:induction false} FieldsLeft(stack: seq<Container>, fields: seq<FieldDescriptor>,
                                      entries: map<DictKey, Data>, i: nat, done: seq<Byte>)
    requires i < |fields|
    ensures var first := WrittenField(stack, fields[i], Find(entries, fields[i].name));
            Prepend(done, WrittenEntries(stack, FieldEntries(fields[i..], entries))) ==
            if first.None? then None
            else Prepend(done + first.value, WrittenEntries(stack, FieldEntries(fields[i + 1..], entries)))
  {
    var rest := fields[i..];
    assert rest[0] == fields[i] && rest[1..] == fields[i + 1..];
    var v := FieldValue(fields[i], Find(entries, fields[i].name));
    var es := FieldEntries(rest[1..], entries);
    if v.Some? && es.Some? {
      if v.value.None? {
        assert done + [] == done;
      } else {
        EntriesStep(stack, done, Entry(TagOf(fields[i]), v.value.value), es.value);
      }
    }
  }

  lemma {:induction false} EntriesStep(stack: seq<Container>, done: seq<Byte>, e: Entry, es: seq<Entry>)
    ensures var first := Written(stack, e.tag, Some(e.value));
            Prepend(done, WrittenEntries(stack, Some([e] + es))) ==
            if first.None? then None else Prepend(done + first.value, WrittenEntries(stack, Some(es)))
  {
    assert ([e] + es)[1..] == es;
    var first := Encode(stack, e.tag, e.value);
    var rest := EncodeEntries(stack, es);
    if first.Success? && rest.Success? {
      assert done + (first.value + rest.value) == done + first.value + rest.value;
    }
  }
}
