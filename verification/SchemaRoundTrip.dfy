/** A well-typed label dict, written by its descriptor and read back, is that dict. */
module SchemaRoundTrip {
  import opened Wrappers
  import opened TlvFormat
  import opened TlvWriter
  import opened TlvReader
  import opened TlvRoundTrip
  import opened TlvAccepts
  import opened Schema

  // ---- well-formed descriptors, well-typed dicts ----------------------------------------

  /** Tags are distinct bytes, names are distinct, and so in nested descriptors. */
  predicate WellFormed(elem: Elem) {
    elem.StructElem? ==> WellFormedFields(elem.descriptor.fields)
  }

  predicate WellFormedFields(fields: seq<FieldDescriptor>) {
    fields == [] ||
    (assert fields decreases to fields[0];
     && WellFormed(fields[0].typ.elem)
     && fields[0].tag.Some? && 0 <= fields[0].tag.value < 256
     && (forall f | f in fields[1..] :: f.tag != fields[0].tag && f.name != fields[0].name)
     && WellFormedFields(fields[1..]))
  }

  predicate WellTypedLeaf(leaf: Leaf, val: Data) {
    match leaf
    case UIntLeaf => val.UIntData? && val.u <= UINT64_MAX
    case IntLeaf => val.IntData? && FitsInt64(val.n)
    case BoolLeaf => val.BoolData?
    case Float32Leaf => val.Float32Data? && |val.f| == 4
    case FloatLeaf => val.FloatData? && |val.d| == 8
    case StrLeaf => val.StrData? && |val.utf8| <= UINT64_MAX
    case BytesLeaf => val.BytesData? && |val.content| <= UINT64_MAX
    case EnumLeaf(members, _) => val.EnumData? && val.member in members && val.member <= UINT64_MAX
  }

  predicate WellTyped(elem: Elem, val: Data)
    decreases elem, 0
  {
    match elem
    case LeafElem(leaf) => WellTypedLeaf(leaf, val)
    case StructElem(d) => val.DictData? && WellTypedFields(d.fields, val.entries)
  }

  predicate WellTypedAll(elem: Elem, vals: seq<Data>)
    decreases elem, 1, vals
  {
    vals == [] || (WellTyped(elem, vals[0]) && WellTypedAll(elem, vals[1..]))
  }

  predicate WellTypedField(f: FieldDescriptor, val: Data)
    decreases f
  {
    if val.NullValue? then f.typ.nullable
    else if val.NoneValue? then f.typ.optional
    else if f.typ.isList then val.ListData? && WellTypedAll(f.typ.elem, val.elems)
    else !val.ListData? && WellTyped(f.typ.elem, val)
  }

  predicate WellTypedFields(fields: seq<FieldDescriptor>, entries: map<DictKey, Data>)
    decreases fields
  {
    fields == [] ||
    (assert fields decreases to fields[0];
     WellTypedField(fields[0], Find(entries, fields[0].name)) && WellTypedFields(fields[1..], entries))
  }

  // ---- what comes back --------------------------------------------------------------------

  /** `val` with the optional fields that are absent left out, at every depth. */
  function Returned(elem: Elem, val: Data): Data
    decreases elem, 0
  {
    match elem
    case LeafElem(_) => val
    case StructElem(d) => if val.DictData? then DictData(ReturnedFields(d.fields, val.entries)) else val
  }

  function ReturnedAll(elem: Elem, vals: seq<Data>): seq<Data>
    decreases elem, 1, vals
  {
    if vals == [] then [] else [Returned(elem, vals[0])] + ReturnedAll(elem, vals[1..])
  }

  function ReturnedField(f: FieldDescriptor, val: Data): Data
    decreases f
  {
    if val.NullValue? then NullValue
    else if val.ListData? then ListData(ReturnedAll(f.typ.elem, val.elems))
    else Returned(f.typ.elem, val)
  }

  function ReturnedFields(fields: seq<FieldDescriptor>, entries: map<DictKey, Data>): map<DictKey, Data>
    decreases fields
  {
    if fields == [] then map[]
    else
      assert fields decreases to fields[0];
      var val := Find(entries, fields[0].name);
      var rest := ReturnedFields(fields[1..], entries);
      if val.NoneValue? then rest else map[Label(fields[0].name) := ReturnedField(fields[0], val)] + rest
  }

  // ---- what is written is accepted and read back ----------------------------------------------

  /** `v` can be written wherever its tag can, and reads back as a value that is not null. */
  predicate Travels(v: Value) {
    Proper(v) && !HasList(v) && !v.Null?
  }

  lemma {:induction false} LeafTravels(leaf: Leaf, val: Data)
    requires WellTypedLeaf(leaf, val)
    ensures Coerce(leaf, val).Some? && Travels(Coerce(leaf, val).value)
    ensures ConvertLeaf(leaf, Meaning(Coerce(leaf, val).value)) == Some(val)
    ensures forall stack, tag | TagAllowed(stack, tag) :: Encodable(stack, tag, Coerce(leaf, val).value)
  {
  }

  /** One element: written, and converted back to itself. */
  lemma {:induction false} ElementBack(elem: Elem, val: Data)
    requires WellFormed(elem) && WellTyped(elem, val)
    ensures SingleValue(elem, val).Some? && Travels(SingleValue(elem, val).value)
    ensures ConvertNonArray(elem, Meaning(SingleValue(elem, val).value)) == Some(Returned(elem, val))
    decreases elem, 0
  {
    match elem
    case LeafElem(leaf) => LeafTravels(leaf, val);
    case StructElem(d) =>
      FieldsWritten(d.fields, val.entries);
      var es := FieldEntries(d.fields, val.entries).value;
      FindableFrom(d, 0);
      assert d.fields[0..] == d.fields;
      FieldsBack(d, d.fields, val.entries, map[]);
      assert map[] + ReturnedFields(d.fields, val.entries) == ReturnedFields(d.fields, val.entries);
  }

  lemma {:induction false} ElementsBack(elem: Elem, vals: seq<Data>)
    requires WellFormed(elem) && WellTypedAll(elem, vals)
    ensures SingleValues(elem, vals).Some?
    ensures var vs := SingleValues(elem, vals).value;
            && AllProperElems(vs) && !SomeListElem(vs)
            && ConvertAll(elem, Meanings(vs)) == Some(ReturnedAll(elem, vals))
    decreases elem, 1, vals
  {
    if vals != [] {
      ElementBack(elem, vals[0]);
      ElementsBack(elem, vals[1..]);
      var vs := SingleValues(elem, vals).value;
      assert vs[1..] == SingleValues(elem, vals[1..]).value;
      assert Meanings(vs)[1..] == Meanings(vs[1..]);
    }
  }

  /** One field that is present: written, and converted back. */
  lemma {:induction false} FieldBack(f: FieldDescriptor, val: Data)
    requires WellFormed(f.typ.elem) && WellTypedField(f, val) && !val.NoneValue?
    ensures var v := FieldValue(f, val);
            && v.Some? && v.value.Some? && Proper(v.value.value) && !HasList(v.value.value)
            && ConvertField(f, Meaning(v.value.value)) == Some(ReturnedField(f, val))
    decreases f
  {
    if val.NullValue? {
    } else if f.typ.isList {
      ElementsBack(f.typ.elem, val.elems);
    } else {
      ElementBack(f.typ.elem, val);
      NotNull(SingleValue(f.typ.elem, val).value);
    }
  }

  lemma {:induction false} NotNull(v: Value)
    requires Travels(v)
    ensures !Meaning(v).DNull?
  {
  }

  /** A descriptor's loop writes entries that are distinct, proper and free of lists. */
  lemma {:induction false} FieldsWritten(fields: seq<FieldDescriptor>, entries: map<DictKey, Data>)
    requires WellFormedFields(fields) && WellTypedFields(fields, entries)
    ensures FieldEntries(fields, entries).Some?
    ensures var es := FieldEntries(fields, entries).value;
            && AllProper(es) && !SomeList(es) && Distinct(es)
            && forall e | e in es :: exists f | f in fields :: e.tag == TagOf(f)
    decreases fields, 0
  {
    if fields != [] {
      assert fields decreases to fields[0];
      FieldsWritten(fields[1..], entries);
      var val := Find(entries, fields[0].name);
      if !val.NoneValue? {
        FieldBack(fields[0], val);
        var es := FieldEntries(fields, entries).value;
        assert es[1..] == FieldEntries(fields[1..], entries).value;
        forall e | e in es
          ensures exists f | f in fields :: e.tag == TagOf(f)
        {
          if e == es[0] {
            assert fields[0] in fields;
          } else {
            assert e in es[1..];
          }
        }
      }
    }
  }

  /** Each of `fields` is what its tag leads to in `d`. */
  predicate Findable(d: Descriptor, fields: seq<FieldDescriptor>) {
    fields == [] || (FoundByTag(d, fields[0]) && Findable(d, fields[1..]))
  }

  predicate FoundByTag(d: Descriptor, f: FieldDescriptor) {
    f in d.fields && f.tag.Some? && 0 <= f.tag.value < 256 && FieldByTag(d.fields, Tagged(f.tag.value)) == Some(f)
  }

  lemma {:induction false} FindableFrom(d: Descriptor, k: nat)
    requires WellFormedFields(d.fields) && k <= |d.fields|
    ensures Findable(d, d.fields[k..])
    decreases |d.fields| - k
  {
    if k < |d.fields| {
      FieldByTagFinds(d.fields, k);
      FindableFrom(d, k + 1);
      assert d.fields[k..][0] == d.fields[k] && d.fields[k..][1..] == d.fields[k + 1..];
    }
  }

  /** The loop over the tags read back. */
  lemma {:induction false} FieldsBack(d: Descriptor, fields: seq<FieldDescriptor>, entries: map<DictKey, Data>,
                                      ret: map<DictKey, Data>)
    requires Findable(d, fields) && WellFormedFields(fields) && WellTypedFields(fields, entries)
    ensures FieldEntries(fields, entries).Some? && !SomeList(FieldEntries(fields, entries).value)
    ensures LabelDict(d, ret, Fields(FieldEntries(fields, entries).value)) ==
            Some(ret + ReturnedFields(fields, entries))
    decreases d, 1, fields
  {
    if fields == [] {
      assert ret + map[] == ret;
    } else {
      var f := fields[0];
      var val := Find(entries, f.name);
      if val.NoneValue? {
        FieldsBack(d, fields[1..], entries, ret);
      } else {
        var back := ReturnedField(f, val);
        FieldsBack(d, fields[1..], entries, ret[Label(f.name) := back]);
        PresentField(d, f, val, ret, FieldEntries(fields[1..], entries).value);
        assert ret[Label(f.name) := back] + ReturnedFields(fields[1..], entries) ==
               ret + (map[Label(f.name) := back] + ReturnedFields(fields[1..], entries));
      }
    }
  }

  lemma {:induction false} PresentField(d: Descriptor, f: FieldDescriptor, val: Data, ret: map<DictKey, Data>,
                                        es: seq<Entry>)
    requires FoundByTag(d, f) && WellFormed(f.typ.elem) && WellTypedField(f, val) && !val.NoneValue? && !SomeList(es)
    ensures FieldValue(f, val).Some? && FieldValue(f, val).value.Some?
    ensures var all := [Entry(TagOf(f), FieldValue(f, val).value.value)] + es;
            && !SomeList(all)
            && LabelDict(d, ret, Fields(all)) == LabelDict(d, ret[Label(f.name) := ReturnedField(f, val)], Fields(es))
    decreases d, 0
  {
    assert d decreases to f;
    FieldBack(f, val);
    FieldStored(d, f, FieldValue(f, val).value.value, ReturnedField(f, val), ret, es);
  }

  lemma {:induction false} FieldStored(d: Descriptor, f: FieldDescriptor, v: Value, back: Data,
                                       ret: map<DictKey, Data>, es: seq<Entry>)
    requires f in d.fields && f.tag.Some? && 0 <= f.tag.value < 256
    requires FieldByTag(d.fields, Tagged(f.tag.value)) == Some(f)
    requires !HasList(v) && !SomeList(es) && ConvertField(f, Meaning(v)) == Some(back)
    ensures !SomeList([Entry(TagOf(f), v)] + es)
    ensures LabelDict(d, ret, Fields([Entry(TagOf(f), v)] + es)) == LabelDict(d, ret[Label(f.name) := back], Fields(es))
  {
    var all := [Entry(TagOf(f), v)] + es;
    assert all[1..] == es;
    assert Fields(all)[0] == Field(Tagged(f.tag.value), Meaning(v)) && Fields(all)[1..] == Fields(es);
  }

  lemma {:induction false} FieldByTagFinds(fields: seq<FieldDescriptor>, k: nat)
    requires WellFormedFields(fields) && k < |fields|
    ensures fields[k].tag.Some? && 0 <= fields[k].tag.value < 256
    ensures FieldByTag(fields, Tagged(fields[k].tag.value)) == Some(fields[k])
  {
    if k > 0 {
      assert fields[k] == fields[1..][k - 1];
      FieldByTagFinds(fields[1..], k - 1);
    }
  }

  // ---- the writer takes it --------------------------------------------------------------------

  lemma {:induction false} ElementEncodes(elem: Elem, val: Data, stack: seq<Container>, tag: Tag)
    requires WellFormed(elem) && WellTyped(elem, val) && TagAllowed(stack, tag)
    ensures SingleValue(elem, val).Some? && Encodable(stack, tag, SingleValue(elem, val).value)
    decreases elem, 0
  {
    match elem
    case LeafElem(leaf) => LeafTravels(leaf, val);
    case StructElem(d) => FieldsEncode(d.fields, val.entries, [Structure] + stack);
  }

  lemma {:induction false} ElementsEncode(elem: Elem, vals: seq<Data>, stack: seq<Container>)
    requires WellFormed(elem) && WellTypedAll(elem, vals) && stack != [] && stack[0] == Array
    ensures SingleValues(elem, vals).Some?
    ensures forall v | v in SingleValues(elem, vals).value :: Encodable(stack, Anonymous, v)
    decreases elem, 1, vals
  {
    if vals != [] {
      ElementEncodes(elem, vals[0], stack, Anonymous);
      ElementsEncode(elem, vals[1..], stack);
    }
  }

  lemma {:induction false} FieldsEncode(fields: seq<FieldDescriptor>, entries: map<DictKey, Data>, stack: seq<Container>)
    requires WellFormedFields(fields) && WellTypedFields(fields, entries) && stack != [] && stack[0] == Structure
    ensures FieldEntries(fields, entries).Some? && AllEncodable(stack, FieldEntries(fields, entries).value)
    decreases fields
  {
    if fields != [] {
      assert fields decreases to fields[0];
      FieldsEncode(fields[1..], entries, stack);
      var f := fields[0];
      var val := Find(entries, f.name);
      if val.NullValue? || val.NoneValue? {
      } else if f.typ.isList {
        ElementsEncode(f.typ.elem, val.elems, [Array] + stack);
      } else {
        ElementEncodes(f.typ.elem, val, stack, TagOf(f));
      }
    }
  }

  /** DictToTLV accepts every well-typed dict of a well-formed descriptor, and TLVToDict
      gives it back, absent optionals omitted and nulls kept as NullValue. */
  lemma {:induction false} SchemaRoundTrip(d: Descriptor, entries: map<DictKey, Data>)
    requires WellFormedFields(d.fields) && WellTypedFields(d.fields, entries)
    ensures StructBytes(d, entries).Some?
    ensures StructDict(d, StructBytes(d, entries).value) == Some(ReturnedFields(d.fields, entries))
  {
    var elem, val := StructElem(d), DictData(entries);
    ElementBack(elem, val);
    ElementEncodes(elem, val, [], Anonymous);
    var v := SingleValue(elem, val).value;
    WriterAccepts([], Anonymous, v);
    RoundTrip(v, Encode([], Anonymous, v).value);
  }

  // ---- what "back" means ------------------------------------------------------------------------

  /** The dict that comes back has exactly the fields that were present, each with its value. */
  lemma {:induction false} ReturnedLookup(fields: seq<FieldDescriptor>, entries: map<DictKey, Data>, key: DictKey)
    requires WellFormedFields(fields)
    ensures var r := ReturnedFields(fields, entries);
            && (key in r <==> exists f | f in fields :: key == Label(f.name) && !Find(entries, f.name).NoneValue?)
            && (forall f | f in fields && key == Label(f.name) && key in r ::
                  r[key] == ReturnedField(f, Find(entries, f.name)))
  {
    if fields != [] {
      ReturnedLookup(fields[1..], entries, key);
      assert forall f :: f in fields <==> f == fields[0] || f in fields[1..];
    }
  }

  /** No entry is None, and none is under a key the descriptor does not have; at every depth. */
  predicate Exact(elem: Elem, val: Data)
    decreases elem, 0
  {
    match elem
    case LeafElem(_) => true
    case StructElem(d) => val.DictData? && ExactDict(d, val.entries)
  }

  predicate ExactAll(elem: Elem, vals: seq<Data>)
    decreases elem, 1, vals
  {
    vals == [] || (Exact(elem, vals[0]) && ExactAll(elem, vals[1..]))
  }

  predicate ExactDict(d: Descriptor, entries: map<DictKey, Data>)
    decreases d, 1
  {
    && (forall key | key in entries :: exists f | f in d.fields :: key == Label(f.name) && !entries[key].NoneValue?)
    && (forall f | f in d.fields :: assert d decreases to f; ExactField(f, Find(entries, f.name)))
  }

  predicate ExactField(f: FieldDescriptor, val: Data)
    decreases f
  {
    val.NullValue? || val.NoneValue? ||
    (if val.ListData? then ExactAll(f.typ.elem, val.elems) else Exact(f.typ.elem, val))
  }

  lemma {:induction false} ExactReturned(elem: Elem, val: Data)
    requires WellFormed(elem) && Exact(elem, val)
    ensures Returned(elem, val) == val
    decreases elem, 0
  {
    if elem.StructElem? {
      ExactDictReturned(elem.descriptor, val.entries);
    }
  }

  lemma {:induction false} ExactAllReturned(elem: Elem, vals: seq<Data>)
    requires WellFormed(elem) && ExactAll(elem, vals)
    ensures ReturnedAll(elem, vals) == vals
    decreases elem, 1, vals
  {
    if vals != [] {
      ExactReturned(elem, vals[0]);
      ExactAllReturned(elem, vals[1..]);
    }
  }

  /** A dict without None entries and without foreign keys comes back as it was. */
  lemma {:induction false} ExactDictReturned(d: Descriptor, entries: map<DictKey, Data>)
    requires WellFormedFields(d.fields) && ExactDict(d, entries)
    ensures ReturnedFields(d.fields, entries) == entries
    decreases d, 1
  {
    var r := ReturnedFields(d.fields, entries);
    forall key
      ensures key in r <==> key in entries
      ensures key in entries ==> r[key] == entries[key]
    {
      ReturnedLookup(d.fields, entries, key);
      if key in entries {
        var f :| f in d.fields && key == Label(f.name);
        assert d decreases to f;
        var val := Find(entries, f.name);
        assert ExactField(f, val);
        ElemWellFormed(d.fields, f);
        if val.NullValue? {
        } else if val.ListData? {
          ExactAllReturned(f.typ.elem, val.elems);
        } else {
          ExactReturned(f.typ.elem, val);
        }
      }
    }
  }

  lemma {:induction false} ElemWellFormed(fields: seq<FieldDescriptor>, f: FieldDescriptor)
    requires WellFormedFields(fields) && f in fields
    ensures WellFormed(f.typ.elem)
  {
    if f != fields[0] {
      ElemWellFormed(fields[1..], f);
    }
  }
}
