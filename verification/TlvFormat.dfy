/** Bytes, little-endian integers, tags and values of the Matter TLV format
    (Appendix A of the Matter Core Specification), as `chip.tlv` handles them. */
module TlvFormat {
  import opened Wrappers

  type Byte = n: int | 0 <= n < 256

  // Element types (low five bits of the control byte).
  const SIGNED_INTEGER := 0x00
  const UNSIGNED_INTEGER := 0x04
  const BOOLEAN := 0x08
  const FLOATING_POINT := 0x0A
  const UTF8_STRING := 0x0C
  const BYTE_STRING := 0x10
  const NULL := 0x14
  const STRUCTURE := 0x15
  const ARRAY := 0x16
  const PATH := 0x17
  const END_OF_CONTAINER := 0x18

  // Tag control (high three bits of the control byte).
  const TAG_CONTEXT := 0x20

  const UINT64_MAX := 0xFFFF_FFFF_FFFF_FFFF

  datatype Error =
    | IntegerOutOfRange
    | AnonymousTagInStructure
    | TagOutOfRange
    | ContextTagAtTopLevel
    | ContextTagInArray
    | InvalidTag
    | Truncated          // struct.unpack on a short slice
    | UnsupportedType

  /** A tag as a caller may pass it: None, an int, or a (profile, number) pair. */
  datatype Tag = Anonymous | Context(number: int) | Profile(profileId: Option<int>, number: int)

  type Bytes4 = s: seq<Byte> | |s| == 4 witness [0, 0, 0, 0]
  type Bytes8 = s: seq<Byte> | |s| == 8 witness [0, 0, 0, 0, 0, 0, 0, 0]

  /** What the writer accepts. Floats are opaque payloads, strings their UTF-8 bytes. */
  datatype Value =
    | Null
    | EnumMember(n: int)
    | Bool(b: bool)
    | UInt(u: nat)
    | Int(n: int)
    | Float32(f: Bytes4)
    | Float64(d: Bytes8)
    | Text(utf8: seq<Byte>)
    | Bytes(content: seq<Byte>)
    | Dict(entries: seq<Entry>)      // a plain dict: the writer sorts it
    | Mapping(entries: seq<Entry>)   // any other Mapping: written in its own order
    | TlvList(entries: seq<Entry>)
    | Sequence(elems: seq<Value>)

  datatype Entry = Entry(tag: Tag, value: Value)

  /** What the reader builds. Structures are dicts in insertion order. */
  datatype Decoded =
    | DNull
    | DBool(b: bool)
    | DUInt(u: nat)
    | DInt(n: int)
    | DFloat32(f: seq<Byte>)
    | DFloat64(d: seq<Byte>)
    | DText(utf8: seq<Byte>)
    | DBytes(content: seq<Byte>)
    | DStruct(fields: seq<Field>)
    | DArray(elems: seq<Decoded>)

  datatype Key = Any | Tagged(number: Byte)

  datatype Field = Field(key: Key, value: Decoded)

  function Pow256(k: nat): (p: int)
    ensures p > 0
  {
    if k == 0 then 1 else 256 * Pow256(k - 1)
  }

  lemma {:induction false} Widths()
    ensures Pow256(1) == 0x100 && Pow256(2) == 0x1_0000 && Pow256(4) == 0x1_0000_0000
    ensures Pow256(8) == 0x1_0000_0000_0000_0000
  {
    assert Pow256(2) == 0x1_0000;
    assert Pow256(3) == 0x100_0000;
    assert Pow256(4) == 0x1_0000_0000;
    assert Pow256(5) == 0x100_0000_0000;
    assert Pow256(6) == 0x1_0000_0000_0000;
    assert Pow256(7) == 0x100_0000_0000_0000;
  }

  /** struct.pack of an unsigned integer, little-endian, in `size` bytes. */
  function LittleEndian(n: nat, size: nat): (bs: seq<Byte>)
    ensures |bs| == size
  {
    if size == 0 then [] else [n % 256] + LittleEndian(n / 256, size - 1)
  }

  function FromLittleEndian(bs: seq<Byte>): nat {
    if bs == [] then 0 else bs[0] + 256 * FromLittleEndian(bs[1..])
  }

  lemma {:induction false} UnpackPack(n: nat, size: nat)
    requires n < Pow256(size)
    ensures FromLittleEndian(LittleEndian(n, size)) == n
  {
    if size > 0 {
      UnpackPack(n / 256, size - 1);
      assert LittleEndian(n, size)[1..] == LittleEndian(n / 256, size - 1);
    }
  }

  /** struct.pack of a signed integer: two's complement in `size` bytes. */
  function PackSigned(n: int, size: nat): (bs: seq<Byte>)
    requires -Pow256(size) <= n
    ensures |bs| == size
  {
    LittleEndian(if n < 0 then n + Pow256(size) else n, size)
  }

  function UnpackSigned(bs: seq<Byte>): int {
    var n := FromLittleEndian(bs);
    if 2 * n >= Pow256(|bs|) then n - Pow256(|bs|) else n
  }

  lemma {:induction false} UnpackPackSigned(n: int, size: nat)
    requires -Pow256(size) <= 2 * n < Pow256(size)
    ensures UnpackSigned(PackSigned(n, size)) == n
  {
    UnpackPack(if n < 0 then n + Pow256(size) else n, size);
  }

  /** Bytes needed for an unsigned integer: 1, 2, 4 or 8. */
  function UnsignedWidth(n: nat): nat {
    if n <= 0xFF then 1 else if n <= 0xFFFF then 2 else if n <= 0xFFFF_FFFF then 4 else 8
  }

  function SignedWidth(n: int): nat {
    if -0x80 <= n <= 0x7F then 1
    else if -0x8000 <= n <= 0x7FFF then 2
    else if -0x8000_0000 <= n <= 0x7FFF_FFFF then 4
    else 8
  }

  predicate FitsInt64(n: int) {
    -0x8000_0000_0000_0000 <= n <= 0x7FFF_FFFF_FFFF_FFFF
  }

  /** Bitwise or. */
  function BitOr(a: nat, b: nat): nat {
    if a == 0 && b == 0 then 0
    else (if a % 2 == 1 || b % 2 == 1 then 1 else 0) + 2 * BitOr(a / 2, b / 2)
  }

  /** tlvTagToSortKey */
  function SortKey(tag: Tag): int {
    match tag
    case Anonymous => -1
    case Context(n) => n
    case Profile(None, n) => 0x1_0000_0000 + n
    case Profile(Some(p), n) => (p + 2) * 0x1_0000_0000 + n
  }

  /** Python's stable `sorted(items, key=tlvTagToSortKey)`. */
  function Sorted(es: seq<Entry>): (r: seq<Entry>)
    ensures |r| == |es|
  {
    if es == [] then [] else Insert(es[0], Sorted(es[1..]))
  }

  function Insert(e: Entry, es: seq<Entry>): (r: seq<Entry>)
    ensures |r| == |es| + 1
  {
    if es == [] || SortKey(e.tag) <= SortKey(es[0].tag) then [e] + es
    else [es[0]] + Insert(e, es[1..])
  }

  function Size(v: Value): nat {
    match v
    case Dict(es) => 1 + EntriesSize(es)
    case Mapping(es) => 1 + EntriesSize(es)
    case TlvList(es) => 1 + EntriesSize(es)
    case Sequence(vs) => 1 + ElemsSize(vs)
    case _ => 0
  }

  function EntriesSize(es: seq<Entry>): nat {
    if es == [] then 0
    else
      assert es decreases to es[0];
      1 + Size(es[0].value) + EntriesSize(es[1..])
  }

  function ElemsSize(vs: seq<Value>): nat {
    if vs == [] then 0 else 1 + Size(vs[0]) + ElemsSize(vs[1..])
  }

  lemma {:induction false} InsertSize(e: Entry, es: seq<Entry>)
    ensures EntriesSize(Insert(e, es)) == 1 + Size(e.value) + EntriesSize(es)
  {
    if es == [] || SortKey(e.tag) <= SortKey(es[0].tag) {
      assert ([e] + es)[1..] == es;
    } else {
      InsertSize(e, es[1..]);
      assert Insert(e, es)[1..] == Insert(e, es[1..]);
    }
  }

  lemma {:induction false} SortedSize(es: seq<Entry>)
    ensures EntriesSize(Sorted(es)) == EntriesSize(es)
  {
    if es != [] {
      SortedSize(es[1..]);
      InsertSize(es[0], Sorted(es[1..]));
    }
  }
}
