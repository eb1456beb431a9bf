/** The descriptor layer beyond well-typed dicts: structures with tags the descriptor does not
    know, values it refuses, and the order of what it writes. */
module SchemaEdges {
  import opened Wrappers
  import opened TlvFormat
  import opened TlvWriter
  import opened TlvReader
  import opened TlvRoundTrip
  import opened TlvAccepts
  import opened TlvWire
  import opened Schema

  // ---- a decoded structure, field by field --------------------------------------------------------

  predicate HasTag(f: FieldDescriptor, key: Key) {
    key.Tagged? && f.tag == Some(key.number)
  }

  /** No two fields have the same name or the same tag. */
  predicate Apart(fields: seq<FieldDescriptor>) {
    forall i, j | 0 <= i < j < |fields| ::
      fields[i].name != fields[j].name && (fields[i].tag.Some? ==> fields[i].tag != fields[j].tag)
  }

  lemma {:induction false} OnlyField(fields: seq<FieldDescriptor>, f: FieldDescriptor, key: Key)
    requires Apart(fields) && f in fields
    ensures FieldByTag(fields, key) == Some(f) <==> HasTag(f, key)
    ensures forall g | g in fields && g.name == f.name :: g == f
  {
    var i :| 0 <= i < |fields| && fields[i] == f;
    var found := FieldByTag(fields, key);
    if found.Some? {
      var j :| 0 <= j < |fields| && fields[j] == found.value;
    }
  }

  lemma {:induction false} ItemsSplit(items: seq<Field>)
    requires items != [] && DistinctKeys(items)
    ensures DistinctKeys(items[1..]) && forall g | g in items[1..] :: g in items && g.key != items[0].key
    ensures forall g | g in items :: g == items[0] || g in items[1..]
  {
  }

  /** The item under the key, if there is one. */
  function ItemAt(items: seq<Field>, key: Key): (r: Option<Decoded>)
    ensures r.None? <==> forall g | g in items :: g.key != key
    ensures r.Some? ==> Field(key, r.value) in items
  {
    if items == [] then None else if items[0].key == key then Some(items[0].value) else ItemAt(items[1..], key)
  }

  /** m has what n has under the key. */
  predicate SameAt(m: map<DictKey, Data>, n: map<DictKey, Data>, key: DictKey) {
    (key in m <==> key in n) && (key in m ==> m[key] == n[key])
  }

  lemma {:induction false} UnknownFrom(d: Descriptor, ret: map<DictKey, Data>, items: seq<Field>, key: Key)
    requires DistinctKeys(items) && LabelDict(d, ret, items).Some?
    ensures var r := LabelDict(d, ret, items).value;
      if (forall f | f in d.fields :: !HasTag(f, key)) && ItemAt(items, key).Some?
      then UnknownTag(key) in r && r[UnknownTag(key)] == RawData(ItemAt(items, key).value)
      else SameAt(r, ret, UnknownTag(key))
    decreases items
  {
    if items != [] {
      ItemsSplit(items);
      var found := FieldByTag(d.fields, items[0].key);
      if found.None? {
        UnknownFrom(d, ret[UnknownTag(items[0].key) := RawData(items[0].value)], items[1..], key);
      } else {
        UnknownFrom(d, ret[Label(found.value.name) := ConvertField(found.value, items[0].value).value], items[1..], key);
      }
    }
  }

  /** What the reader found under a tag that no field has is kept as it was, under its tag; and
      nothing else is kept so. */
  lemma {:induction false} UnknownTagsKept(d: Descriptor, items: seq<Field>, key: Key)
    requires DistinctKeys(items) && LabelDict(d, map[], items).Some?
    ensures var r := LabelDict(d, map[], items).value;
      && (UnknownTag(key) in r <==>
            (exists g | g in items :: g.key == key) && forall f | f in d.fields :: !HasTag(f, key))
      && (forall g | g in items && g.key == key && UnknownTag(key) in r :: r[UnknownTag(key)] == RawData(g.value))
  {
    UnknownFrom(d, map[], items, key);
    forall g | g in items && g.key == key ensures ItemAt(items, key) == Some(g.value) {
      ItemIs(items, g);
    }
  }

  lemma {:induction false} ItemIs(items: seq<Field>, g: Field)
    requires DistinctKeys(items) && g in items
    ensures ItemAt(items, g.key) == Some(g.value)
  {
    ItemsSplit(items);
    if g != items[0] {
      ItemIs(items[1..], g);
    }
  }

  lemma {:induction false} LabelFrom(d: Descriptor, ret: map<DictKey, Data>, items: seq<Field>, f: FieldDescriptor)
    requires Apart(d.fields) && f in d.fields && DistinctKeys(items) && LabelDict(d, ret, items).Some?
    ensures var r := LabelDict(d, ret, items).value;
      if f.tag.Some? && 0 <= f.tag.value < 256 && ItemAt(items, Tagged(f.tag.value)).Some?
      then Label(f.name) in r && ConvertField(f, ItemAt(items, Tagged(f.tag.value)).value) == Some(r[Label(f.name)])
      else SameAt(r, ret, Label(f.name))
    decreases items
  {
    if items != [] {
      ItemsSplit(items);
      OnlyField(d.fields, f, items[0].key);
      var found := FieldByTag(d.fields, items[0].key);
      if found.None? {
        LabelFrom(d, ret[UnknownTag(items[0].key) := RawData(items[0].value)], items[1..], f);
      } else {
        LabelFrom(d, ret[Label(found.value.name) := ConvertField(found.value, items[0].value).value], items[1..], f);
        if HasTag(f, items[0].key) {
          assert ItemAt(items[1..], items[0].key).None?;
        }
      }
    }
  }

  /** A field is in the dict exactly if its tag was read, with its converted value. */
  lemma {:induction false} LabelsRead(d: Descriptor, items: seq<Field>, f: FieldDescriptor)
    requires Apart(d.fields) && f in d.fields && DistinctKeys(items) && LabelDict(d, map[], items).Some?
    ensures var r := LabelDict(d, map[], items).value;
      && (Label(f.name) in r <==> exists g | g in items :: HasTag(f, g.key))
      && (forall g | g in items && HasTag(f, g.key) && Label(f.name) in r ::
            ConvertField(f, g.value) == Some(r[Label(f.name)]))
  {
    LabelFrom(d, map[], items, f);
    forall g | g in items && HasTag(f, g.key)
      ensures f.tag.Some? && g.key == Tagged(f.tag.value) && ItemAt(items, g.key) == Some(g.value)
    {
      ItemIs(items, g);
    }
  }

  /** The call raises exactly if a value under a field's tag cannot be converted. */
  lemma {:induction false} ReadRaises(d: Descriptor, ret: map<DictKey, Data>, items: seq<Field>)
    requires Apart(d.fields)
    ensures LabelDict(d, ret, items).None?
       <==> exists g, f | g in items && f in d.fields :: HasTag(f, g.key) && ConvertField(f, g.value).None?
    decreases items
  {
    if items != [] {
      var found := FieldByTag(d.fields, items[0].key);
      forall f | f in d.fields ensures HasTag(f, items[0].key) <==> found == Some(f) {
        OnlyField(d.fields, f, items[0].key);
      }
      if found.None? {
        ReadRaises(d, ret[UnknownTag(items[0].key) := RawData(items[0].value)], items[1..]);
      } else if ConvertField(found.value, items[0].value).Some? {
        ReadRaises(d, ret[Label(found.value.name) := ConvertField(found.value, items[0].value).value], items[1..]);
      }
      assert forall g :: g in items <==> g == items[0] || g in items[1..];
    }
  }

  /** Null is read for every field, nullable or not; a list element by element. */
  lemma {:induction false} FieldRead(f: FieldDescriptor, value: Decoded)
    ensures value.DNull? ==> ConvertField(f, value) == Some(NullValue)
    ensures f.typ.isList && value.DArray? ==>
      (ConvertField(f, value).None? <==> exists v | v in value.elems :: ConvertNonArray(f.typ.elem, v).None?)
    ensures f.typ.isList && value.DArray? && ConvertField(f, value).Some? ==>
      var r := ConvertField(f, value).value;
      && r.ListData? && |r.elems| == |value.elems|
      && forall i | 0 <= i < |r.elems| :: ConvertNonArray(f.typ.elem, value.elems[i]) == Some(r.elems[i])
    ensures f.typ.isList && (value.DBool? || value.DUInt? || value.DInt? || value.DFloat32? || value.DFloat64?) ==>
      ConvertField(f, value).None?
    ensures !f.typ.isList && value.DArray? && !(f.typ.elem.LeafElem? && f.typ.elem.leaf.EnumLeaf?) ==>
      ConvertField(f, value).None?
  {
    if f.typ.isList && value.DArray? {
      EachConverted(f.typ.elem, value.elems);
    }
  }

  lemma {:induction false} EachConverted(elem: Elem, values: seq<Decoded>)
    ensures ConvertAll(elem, values).None? <==> exists v | v in values :: ConvertNonArray(elem, v).None?
    ensures ConvertAll(elem, values).Some? ==>
      var r := ConvertAll(elem, values).value;
      |r| == |values| && forall i | 0 <= i < |r| :: ConvertNonArray(elem, values[i]) == Some(r[i])
    decreases values
  {
    if values != [] {
      EachConverted(elem, values[1..]);
      assert values[0] in values && forall v | v in values :: v == values[0] || v in values[1..];
      if v :| v in values[1..] && ConvertNonArray(elem, v).None? {
        assert v in values;
      }
    }
  }

  /** An enum field takes every value: its own members, and for all else the unknown member. */
  lemma {:induction false} EnumRead(members: set<nat>, unknown: nat, value: Decoded)
    ensures ConvertLeaf(EnumLeaf(members, unknown), value) ==
      if value.DUInt? && value.u in members then Some(EnumData(value.u))
      else if value.DInt? && value.n >= 0 && (value.n as nat) in members then Some(EnumData(value.n))
      else if value == DBool(true) && 1 in members then Some(EnumData(1))
      else if value == DBool(false) && 0 in members then Some(EnumData(0))
      else Some(EnumData(unknown))
  {
  }

  /** Every other leaf takes the values that are instances of its type, unchanged: int those of
      uint and bool too, float those of float32. */
  lemma {:induction false} LeafRead(leaf: Leaf, value: Decoded)
    requires !leaf.EnumLeaf?
    ensures ConvertLeaf(leaf, value) ==
      match value
      case DUInt(u) => if leaf.UIntLeaf? || leaf.IntLeaf? then Some(UIntData(u)) else None
      case DInt(n) => if leaf.IntLeaf? then Some(IntData(n)) else None
      case DBool(b) => if leaf.BoolLeaf? || leaf.IntLeaf? then Some(BoolData(b)) else None
      case DFloat32(f) => if leaf.Float32Leaf? || leaf.FloatLeaf? then Some(Float32Data(f)) else None
      case DFloat64(d) => if leaf.FloatLeaf? then Some(FloatData(d)) else None
      case DText(s) => if leaf.StrLeaf? then Some(StrData(s)) else None
      case DBytes(s) => if leaf.BytesLeaf? then Some(BytesData(s)) else None
      case _ => None
  {
  }

  /** A struct field takes a structure only, read by its own descriptor. */
  lemma {:induction false} StructRead(d: Descriptor, value: Decoded)
    ensures ConvertNonArray(StructElem(d), value).Some? ==>
      value.DStruct? && LabelDict(d, map[], value.fields).Some?
      && ConvertNonArray(StructElem(d), value).value == DictData(LabelDict(d, map[], value.fields).value)
    ensures value.DStruct? && LabelDict(d, map[], value.fields).Some? ==> ConvertNonArray(StructElem(d), value).Some?
  {
  }

  // ---- whatever the reader returns ----------------------------------------------------------------

  predicate KeyedValue(v: Decoded) {
    v.DStruct? ==> DistinctKeys(v.fields)
  }

  lemma {:induction false} ValueKeyed(tlv: seq<Byte>, pos: nat, t: nat)
    requires pos <= |tlv| && t < 32 && ReadValue(tlv, pos, t).Success?
    ensures KeyedValue(ReadValue(tlv, pos, t).value.value)
  {
    if t == STRUCTURE {
      KeysOnce([], ReadItems(tlv, pos).value.value);
    }
  }

  lemma {:induction false} ItemsKeyed(tlv: seq<Byte>, pos: nat)
    requires ReadItems(tlv, pos).Success?
    ensures forall item | item in ReadItems(tlv, pos).value.value :: KeyedValue(item.value)
    decreases |tlv| - pos
  {
    if pos < |tlv| {
      var first := ReadElement(tlv, pos).value;
      if first.value.Some? {
        var tagged := tlv[pos] / 32 * 32 == TAG_CONTEXT;
        ValueKeyed(tlv, if tagged then pos + 2 else pos + 1, tlv[pos] % 32);
        ItemsKeyed(tlv, first.next);
      }
    }
  }

  lemma {:induction false} StoredKeyed(d: seq<Field>, items: seq<Item>)
    requires (forall f | f in d :: KeyedValue(f.value)) && forall item | item in items :: KeyedValue(item.value)
    ensures forall f | f in Store(d, items) :: KeyedValue(f.value)
    decreases items
  {
    if items != [] {
      SetKeyed(d, KeyOf(items[0].tag), items[0].value);
      StoredKeyed(SetKey(d, KeyOf(items[0].tag), items[0].value), items[1..]);
    }
  }

  lemma {:induction false} SetKeyed(d: seq<Field>, key: Key, value: Decoded)
    ensures forall f | f in SetKey(d, key, value) :: f == Field(key, value) || f in d
  {
    if d != [] && d[0].key != key {
      SetKeyed(d[1..], key, value);
    }
  }

  /** TLVToDict on any bytes: the dict of the anonymous structure, whose keys are distinct; an
      empty one without an anonymous element; an exception if that is no structure. */
  lemma {:induction false} AnonymousRead(d: Descriptor, tlv: seq<Byte>)
    ensures Get(tlv).Failure? ==> StructDict(d, tlv).None?
    ensures Get(tlv).Success? ==>
      match Lookup(Get(tlv).value.value, Any)
      case None => StructDict(d, tlv) == Some(map[])
      case Some(DStruct(fields)) => DistinctKeys(fields) && StructDict(d, tlv) == LabelDict(d, map[], fields)
      case Some(_) => StructDict(d, tlv).None?
  {
    if Get(tlv).Success? {
      var fields := Get(tlv).value.value;
      ItemsKeyed(tlv, 0);
      StoredKeyed([], ReadItems(tlv, 0).value.value);
      AnyIsLookup(fields);
    }
  }

  lemma {:induction false} AnyIsLookup(fields: seq<Field>)
    ensures AnyOf(fields) == Lookup(fields, Any)
    ensures AnyOf(fields).Some? ==> exists f | f in fields :: f.value == AnyOf(fields).value
  {
    if fields != [] && fields[0].key != Any {
      AnyIsLookup(fields[1..]);
    }
  }

  // ---- what is written, and what raises -----------------------------------------------------------

  /** Null needs a nullable field, absence an optional one; a list and a list field go together. */
  lemma {:induction false} FieldTakes(f: FieldDescriptor, val: Data)
    ensures val.NullValue? ==> FieldValue(f, val) == if f.typ.nullable then Some(Some(Null)) else None
    ensures val.NoneValue? ==> FieldValue(f, val) == if f.typ.optional then Some(None) else None
    ensures !val.NullValue? && !val.NoneValue? ==> FieldValue(f, val) != Some(None)
    ensures !val.NullValue? && !val.NoneValue? && (val.ListData? <==> !f.typ.isList) ==> FieldValue(f, val).None?
    ensures !val.NullValue? && !val.NoneValue? && !val.ListData? && !f.typ.isList ==>
      (FieldValue(f, val).Some? <==> SingleValue(f.typ.elem, val).Some?)
      && (FieldValue(f, val).Some? ==> FieldValue(f, val) == Some(SingleValue(f.typ.elem, val)))
    ensures val.ListData? && f.typ.isList ==>
      (FieldValue(f, val).None? <==> exists v | v in val.elems :: SingleValue(f.typ.elem, v).None?)
    ensures val.ListData? && f.typ.isList && FieldValue(f, val).Some? ==>
      && FieldValue(f, val).value.Some? && FieldValue(f, val).value.value.Sequence?
      && var vs := FieldValue(f, val).value.value.elems;
      |vs| == |val.elems| && forall i | 0 <= i < |vs| :: SingleValue(f.typ.elem, val.elems[i]) == Some(vs[i])
  {
    if val.ListData? {
      EachTaken(f.typ.elem, val.elems);
    }
  }

  lemma {:induction false} EachTaken(elem: Elem, vals: seq<Data>)
    ensures SingleValues(elem, vals).None? <==> exists v | v in vals :: SingleValue(elem, v).None?
    ensures SingleValues(elem, vals).Some? ==>
      var r := SingleValues(elem, vals).value;
      |r| == |vals| && forall i | 0 <= i < |r| :: SingleValue(elem, vals[i]) == Some(r[i])
    decreases vals
  {
    if vals != [] {
      EachTaken(elem, vals[1..]);
      assert vals[0] in vals && forall v | v in vals :: v == vals[0] || v in vals[1..];
      if v :| v in vals[1..] && SingleValue(elem, v).None? {
        assert v in vals;
      }
    }
  }

  /** A dict raises exactly if one of the descriptor's fields does. */
  lemma {:induction false} WriteRaises(fields: seq<FieldDescriptor>, entries: map<DictKey, Data>)
    ensures FieldEntries(fields, entries).None?
       <==> exists f | f in fields :: FieldValue(f, Find(entries, f.name)).None?
    decreases fields
  {
    if fields != [] {
      WriteRaises(fields[1..], entries);
      assert forall f :: f in fields <==> f == fields[0] || f in fields[1..];
    }
  }

  /** Before anything is sent: a mandatory field that is absent, or null where that is not
      allowed, makes DictToTLV raise. */
  lemma {:induction false} MandatoryFieldsNeeded(d: Descriptor, entries: map<DictKey, Data>, f: FieldDescriptor)
    requires f in d.fields
    requires (Label(f.name) !in entries && !f.typ.optional)
          || (Label(f.name) in entries && entries[Label(f.name)] == NullValue && !f.typ.nullable)
    ensures StructBytes(d, entries).None?
  {
    FieldTakes(f, Find(entries, f.name));
    WriteRaises(d.fields, entries);
  }

  /** The fields are written in the descriptor's order: each present one comes right behind
      those present among the fields before it. */
  lemma {:induction false} WrittenInFieldOrder(fields: seq<FieldDescriptor>, entries: map<DictKey, Data>, i: nat)
    requires i < |fields| && FieldEntries(fields, entries).Some? && !Find(entries, fields[i].name).NoneValue?
    ensures FieldEntries(fields[..i], entries).Some?
    ensures var es, k := FieldEntries(fields, entries).value, |FieldEntries(fields[..i], entries).value|;
      && k < |es| && es[k].tag == TagOf(fields[i])
      && FieldValue(fields[i], Find(entries, fields[i].name)) == Some(Some(es[k].value))
    decreases fields
  {
    FieldTakes(fields[i], Find(entries, fields[i].name));
    if i > 0 {
      WrittenInFieldOrder(fields[1..], entries, i - 1);
      assert fields[..i][0] == fields[0] && fields[..i][1..] == fields[1..][..i - 1];
    } else {
      assert fields[..i] == [];
    }
  }

  /** And nothing but present fields is written. */
  lemma {:induction false} OnlyPresentWritten(fields: seq<FieldDescriptor>, entries: map<DictKey, Data>, e: Entry)
    requires FieldEntries(fields, entries).Some? && e in FieldEntries(fields, entries).value
    ensures exists f | f in fields ::
      e.tag == TagOf(f) && !Find(entries, f.name).NoneValue? && FieldValue(f, Find(entries, f.name)) == Some(Some(e.value))
    decreases fields
  {
    FieldTakes(fields[0], Find(entries, fields[0].name));
    var rest := FieldEntries(fields[1..], entries).value;
    if e in rest {
      OnlyPresentWritten(fields[1..], entries, e);
    }
  }

  /** An enum field is written with a member; what is none becomes the unknown member. */
  lemma {:induction false} EnumWritten(members: set<nat>, unknown: nat, val: Data)
    requires val.EnumData? || val.UIntData? || val.IntData?
    ensures var n := if val.EnumData? then val.member else if val.UIntData? then val.u else val.n;
      Coerce(EnumLeaf(members, unknown), val)
      == Some(EnumMember(if n >= 0 && (n as nat) in members then n else unknown))
  {
  }

  /** Numbers are taken over; only a negative one for an unsigned field is refused. */
  lemma {:induction false} NumberWritten(n: int)
    ensures Coerce(UIntLeaf, IntData(n)) == if n >= 0 then Some(UInt(n)) else None
    ensures Coerce(IntLeaf, IntData(n)) == Some(Int(n))
    ensures Coerce(BoolLeaf, IntData(n)) == Some(Bool(n != 0))
    ensures n >= 0 ==> Coerce(UIntLeaf, UIntData(n)) == Some(UInt(n)) && Coerce(IntLeaf, UIntData(n)) == Some(Int(n))
    ensures n >= 0 ==> Coerce(UIntLeaf, EnumData(n)) == Some(UInt(n)) && Coerce(IntLeaf, EnumData(n)) == Some(Int(n))
    ensures n >= 0 ==> Coerce(BoolLeaf, UIntData(n)) == Some(Bool(n != 0))
  {
  }
}
