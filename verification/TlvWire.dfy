/** The format byte by byte, and that the writer writes exactly these bytes and the reader reads
    them: control bytes, least widths and little-endian numbers stated on their own. */
module TlvWire {
  import opened Wrappers
  import opened TlvFormat
  import opened TlvWriter
  import opened TlvReader
  import opened TlvRoundTrip
  import opened TlvAccepts

  // ---- numbers ----------------------------------------------------------------------------------

  /** The i-th byte is the i-th digit of n in base 256. */
  ghost predicate IsLittle(bs: seq<Byte>, n: nat) {
    n < Pow256(|bs|) && forall i | 0 <= i < |bs| :: bs[i] == n / Pow256(i) % 256
  }

  /** The two's complement of n. */
  ghost predicate IsTwos(bs: seq<Byte>, n: int) {
    && -Pow256(|bs|) <= 2 * n < Pow256(|bs|)
    && IsLittle(bs, if n < 0 then n + Pow256(|bs|) else n)
  }

  lemma {:induction false} AtLeastOnce(m: int, k: int)
    requires m > 0 && k >= 1
    ensures m * k >= m
  {
  }

  lemma {:induction false} QuotientUnique(m: int, q: int, r: int, p: int, s: int)
    requires 0 <= r < m && 0 <= s < m && m * q + r == m * p + s
    ensures p == q
  {
    assert m * (p - q) == m * p - m * q == r - s;
    assert m * (q - p) == s - r;
    if p > q {
      AtLeastOnce(m, p - q);
    } else if p < q {
      AtLeastOnce(m, q - p);
    }
  }

  lemma {:induction false} DivMod(n: nat, m: int)
    requires m > 0
    ensures n == m * (n / m) + n % m && 0 <= n % m < m
  {
  }

  lemma {:induction false} DivideTwice(n: nat, b: int)
    requires b > 0
    ensures n / 256 / b == n / (256 * b)
  {
    var q, r := n / 256 / b, n / 256 % b;
    DivMod(n / 256, b);
    DivMod(n, 256 * b);
    assert (256 * b) * q == 256 * (b * q);
    QuotientUnique(256 * b, q, 256 * r + n % 256, n / (256 * b), n % (256 * b));
  }

  lemma {:induction false} LittleDigit(n: nat, size: nat, i: nat)
    requires i < size
    ensures LittleEndian(n, size)[i] == n / Pow256(i) % 256
  {
    if i > 0 {
      LittleDigit(n / 256, size - 1, i - 1);
      DivideTwice(n, Pow256(i - 1));
    }
  }

  /** struct.pack: the least significant byte comes first. */
  lemma {:induction false} LittleEndianBytes(n: nat, size: nat)
    requires n < Pow256(size)
    ensures IsLittle(LittleEndian(n, size), n)
  {
    forall i | 0 <= i < size ensures LittleEndian(n, size)[i] == n / Pow256(i) % 256 {
      LittleDigit(n, size, i);
    }
  }

  lemma {:induction false} PackUnpack(bs: seq<Byte>)
    ensures FromLittleEndian(bs) < Pow256(|bs|) && LittleEndian(FromLittleEndian(bs), |bs|) == bs
  {
    if bs != [] {
      PackUnpack(bs[1..]);
      var n, rest := FromLittleEndian(bs), FromLittleEndian(bs[1..]);
      ByteAndRest(bs[0], rest);
      assert LittleEndian(n, |bs|) == [n % 256] + LittleEndian(n / 256, |bs| - 1);
      assert [bs[0]] + bs[1..] == bs;
    }
  }

  lemma {:induction false} ByteAndRest(b: Byte, rest: nat)
    ensures (b + 256 * rest) % 256 == b && (b + 256 * rest) / 256 == rest
  {
  }

  /** struct.unpack of any bytes, unsigned and signed. */
  lemma {:induction false} FromLittleEndianValue(bs: seq<Byte>)
    ensures IsLittle(bs, FromLittleEndian(bs)) && IsTwos(bs, UnpackSigned(bs))
  {
    PackUnpack(bs);
    LittleEndianBytes(FromLittleEndian(bs), |bs|);
  }

  /** The bytes stand for one number only. */
  lemma {:induction false} LittleUnique(a: seq<Byte>, b: seq<Byte>, m: nat, n: nat)
    requires |a| == |b| && IsLittle(a, m) && IsLittle(b, n)
    ensures a == b <==> m == n
  {
    if a == b {
      LittleEndianBytes(m, |a|);
      LittleEndianBytes(n, |a|);
      UnpackPack(m, |a|);
      UnpackPack(n, |a|);
      assert LittleEndian(m, |a|) == a == LittleEndian(n, |a|);
    }
  }

  /** The widths that the two low bits of a control byte stand for. */
  const WIDTHS: seq<nat> := [1, 2, 4, 8]

  /** n in the least width that holds it. */
  ghost predicate LeastUnsigned(bs: seq<Byte>, code: nat, n: nat)
    requires code < 4
  {
    |bs| == WIDTHS[code] && IsLittle(bs, n) && forall c | 0 <= c < code :: n >= Pow256(WIDTHS[c])
  }

  ghost predicate LeastSigned(bs: seq<Byte>, code: nat, n: int)
    requires code < 4
  {
    |bs| == WIDTHS[code] && IsTwos(bs, n)
    && forall c | 0 <= c < code :: !(-Pow256(WIDTHS[c]) <= 2 * n < Pow256(WIDTHS[c]))
  }

  function CodeOf(width: nat): (code: nat)
    ensures code < 4
  {
    if width == 2 then 1 else if width == 4 then 2 else if width == 8 then 3 else 0
  }

  lemma {:induction false} UnsignedIsLeast(n: nat)
    requires n < 0x1_0000_0000_0000_0000
    ensures PackUnsigned(n).Success?
    ensures LeastUnsigned(PackUnsigned(n).value, CodeOf(|PackUnsigned(n).value|), n)
  {
    Widths();
    LittleEndianBytes(n, UnsignedWidth(n));
  }

  lemma {:induction false} SignedIsLeast(n: int)
    requires -0x8000_0000_0000_0000 <= n < 0x8000_0000_0000_0000
    ensures FitsInt64(n) && -Pow256(SignedWidth(n)) <= n
    ensures LeastSigned(PackSigned(n, SignedWidth(n)), CodeOf(SignedWidth(n)), n)
  {
    Widths();
    LittleEndianBytes(if n < 0 then n + Pow256(SignedWidth(n)) else n, SignedWidth(n));
  }

  // ---- elements -----------------------------------------------------------------------------------

  /** The control byte t, with 0x20 for a context tag and the tag's number behind it. */
  predicate Starts(bs: seq<Byte>, t: int, tag: Tag) {
    |bs| >= HeadSize(tag) && if tag.Context? then bs[0] == t + 0x20 && bs[1] == tag.number else bs[0] == t
  }

  function HeadSize(tag: Tag): nat {
    if tag.Context? then 2 else 1
  }

  ghost predicate UnsignedWire(tag: Tag, n: nat, bs: seq<Byte>) {
    exists code: nat | code < 4 :: Starts(bs, 0x04 + code, tag) && LeastUnsigned(bs[HeadSize(tag)..], code, n)
  }

  ghost predicate SignedWire(tag: Tag, n: int, bs: seq<Byte>) {
    exists code: nat | code < 4 :: Starts(bs, 0x00 + code, tag) && LeastSigned(bs[HeadSize(tag)..], code, n)
  }

  ghost predicate StringWire(tag: Tag, t: nat, content: seq<Byte>, bs: seq<Byte>) {
    exists code: nat | code < 4 :: StringOf(tag, t, code, content, bs)
  }

  /** A length in its least width, then the content. */
  ghost predicate StringOf(tag: Tag, t: nat, code: nat, content: seq<Byte>, bs: seq<Byte>)
    requires code < 4
  {
    var start := HeadSize(tag) + WIDTHS[code];
    && Starts(bs, t + code, tag) && |bs| == start + |content|
    && LeastUnsigned(bs[HeadSize(tag)..start], code, |content|) && bs[start..] == content
  }

  /** Between the control byte t and the end marker 0x18. */
  predicate Encloses(bs: seq<Byte>, t: nat, tag: Tag) {
    Starts(bs, t, tag) && |bs| > HeadSize(tag) && bs[|bs| - 1] == 0x18
  }

  function Inside(bs: seq<Byte>, tag: Tag): seq<Byte>
    requires |bs| > HeadSize(tag)
  {
    bs[HeadSize(tag)..|bs| - 1]
  }

  /** bs are the bytes of the value under the tag. */
  ghost predicate Wire(tag: Tag, v: Value, bs: seq<Byte>)
    decreases Size(v), 1
  {
    match v
    case Null => Starts(bs, 0x14, tag) && |bs| == HeadSize(tag)
    case Bool(b) => Starts(bs, if b then 0x09 else 0x08, tag) && |bs| == HeadSize(tag)
    case EnumMember(n) => n >= 0 && UnsignedWire(tag, n, bs)
    case UInt(n) => UnsignedWire(tag, n, bs)
    case Int(n) => SignedWire(tag, n, bs)
    case Float32(f) => Starts(bs, 0x0A, tag) && bs[HeadSize(tag)..] == f
    case Float64(d) => Starts(bs, 0x0B, tag) && bs[HeadSize(tag)..] == d
    case Text(utf8) => StringWire(tag, 0x0C, utf8, bs)
    case Bytes(content) => StringWire(tag, 0x10, content, bs)
    case Dict(es) =>
      SortedSize(es);
      Encloses(bs, 0x15, tag) && WireEntries(Sorted(es), Inside(bs, tag))
    case Mapping(es) => Encloses(bs, 0x15, tag) && WireEntries(es, Inside(bs, tag))
    case TlvList(es) => Encloses(bs, 0x17, tag) && WireEntries(es, Inside(bs, tag))
    case Sequence(vs) => Encloses(bs, 0x16, tag) && WireElems(vs, Inside(bs, tag))
  }

  /** The entries' bytes one after the other. */
  ghost predicate WireEntries(es: seq<Entry>, bs: seq<Byte>)
    decreases EntriesSize(es), 0
  {
    if es == [] then bs == []
    else exists k | 0 <= k <= |bs| :: Wire(es[0].tag, es[0].value, bs[..k]) && WireEntries(es[1..], bs[k..])
  }

  ghost predicate WireElems(vs: seq<Value>, bs: seq<Byte>)
    decreases ElemsSize(vs), 0
  {
    if vs == [] then bs == []
    else exists k | 0 <= k <= |bs| :: Wire(Anonymous, vs[0], bs[..k]) && WireElems(vs[1..], bs[k..])
  }

  // ---- the writer writes these bytes --------------------------------------------------------------

  lemma {:induction false} HeadWritten(stack: seq<Container>, elementType: Byte, tag: Tag, width: nat, rest: seq<Byte>)
    requires Widthed(elementType, width) && ControlAndTag(stack, elementType, tag, width).Success?
    ensures var control := ControlAndTag(stack, elementType, tag, width).value;
      |control| == HeadSize(tag) && Starts(control + rest, SizedType(elementType, width), tag)
      && (control + rest)[HeadSize(tag)..] == rest
  {
    ControlBytes(stack, elementType, tag, width);
  }

  lemma {:induction false} UnsignedWritten(stack: seq<Container>, tag: Tag, n: nat)
    requires EncodeUnsigned(stack, tag, n).Success?
    ensures UnsignedWire(tag, n, EncodeUnsigned(stack, tag, n).value)
  {
    UnsignedIsLeast(n);
    var payload := PackUnsigned(n).value;
    HeadWritten(stack, UNSIGNED_INTEGER, tag, |payload|, payload);
    assert LeastUnsigned(payload, CodeOf(|payload|), n);
  }

  lemma {:induction false} SignedWritten(stack: seq<Container>, tag: Tag, n: int)
    requires EncodeSigned(stack, tag, n).Success?
    ensures SignedWire(tag, n, EncodeSigned(stack, tag, n).value)
  {
    SignedIsLeast(n);
    var payload := PackSigned(n, SignedWidth(n));
    HeadWritten(stack, SIGNED_INTEGER, tag, |payload|, payload);
    assert LeastSigned(payload, CodeOf(|payload|), n);
  }

  lemma {:induction false} StringPut(control: seq<Byte>, length: seq<Byte>, tag: Tag, t: nat, code: nat, content: seq<Byte>)
    requires code < 4 && |control| == HeadSize(tag) && Starts(control + (length + content), t + code, tag)
    requires LeastUnsigned(length, code, |content|)
    ensures StringWire(tag, t, content, control + length + content)
  {
    var bs := control + length + content;
    assert bs == control + (length + content);
    assert bs[HeadSize(tag)..HeadSize(tag) + WIDTHS[code]] == length;
    assert bs[HeadSize(tag) + WIDTHS[code]..] == content;
    assert StringOf(tag, t, code, content, bs);
  }

  lemma {:induction false} StringWritten(stack: seq<Container>, elementType: Byte, tag: Tag, content: seq<Byte>)
    requires elementType == UTF8_STRING || elementType == BYTE_STRING
    requires EncodeString(stack, elementType, tag, content).Success?
    ensures StringWire(tag, elementType, content, EncodeString(stack, elementType, tag, content).value)
  {
    UnsignedIsLeast(|content|);
    var length := PackUnsigned(|content|).value;
    HeadWritten(stack, elementType, tag, |length|, length + content);
    var control := ControlAndTag(stack, elementType, tag, |length|).value;
    StringPut(control, length, tag, elementType, CodeOf(|length|), content);
  }

  lemma {:induction false} ContainerWritten(stack: seq<Container>, elementType: Byte, tag: Tag, body: seq<Byte>)
    requires elementType in {STRUCTURE, ARRAY, PATH} && ControlAndTag(stack, elementType, tag, 0).Success?
    ensures var bs := ControlAndTag(stack, elementType, tag, 0).value + body + [END_OF_CONTAINER];
      Encloses(bs, elementType, tag) && Inside(bs, tag) == body
  {
    HeadWritten(stack, elementType, tag, 0, body + [END_OF_CONTAINER]);
    var control := ControlAndTag(stack, elementType, tag, 0).value;
    assert control + body + [END_OF_CONTAINER] == control + (body + [END_OF_CONTAINER]);
  }

  lemma {:induction false} ScalarWritten(stack: seq<Container>, tag: Tag, v: Value)
    requires !v.Dict? && !v.Mapping? && !v.TlvList? && !v.Sequence?
    requires Encode(stack, tag, v).Success?
    ensures Wire(tag, v, Encode(stack, tag, v).value)
  {
    match v
    case Null => HeadWritten(stack, NULL, tag, 0, []);
    case Bool(b) => HeadWritten(stack, if b then BOOLEAN + 1 else BOOLEAN, tag, 0, []);
    case EnumMember(n) => UnsignedWritten(stack, tag, n);
    case UInt(n) => UnsignedWritten(stack, tag, n);
    case Int(n) => SignedWritten(stack, tag, n);
    case Float32(f) => HeadWritten(stack, FLOATING_POINT, tag, 4, f);
    case Float64(d) => HeadWritten(stack, FLOATING_POINT, tag, 8, d);
    case Text(utf8) => StringWritten(stack, UTF8_STRING, tag, utf8);
    case Bytes(content) => StringWritten(stack, BYTE_STRING, tag, content);
  }

  lemma {:induction false} ValueWritten(stack: seq<Container>, tag: Tag, v: Value)
    requires Encode(stack, tag, v).Success?
    ensures Wire(tag, v, Encode(stack, tag, v).value)
    decreases Size(v), 1
  {
    match v
    case Dict(es) =>
      SortedSize(es);
      EntriesWritten([Structure] + stack, Sorted(es));
      ContainerWritten(stack, STRUCTURE, tag, EncodeEntries([Structure] + stack, Sorted(es)).value);
    case Mapping(es) =>
      EntriesWritten([Structure] + stack, es);
      ContainerWritten(stack, STRUCTURE, tag, EncodeEntries([Structure] + stack, es).value);
    case TlvList(es) =>
      EntriesWritten([Path] + stack, es);
      ContainerWritten(stack, PATH, tag, EncodeEntries([Path] + stack, es).value);
    case Sequence(vs) =>
      ElemsWritten([Array] + stack, vs);
      ContainerWritten(stack, ARRAY, tag, EncodeElems([Array] + stack, vs).value);
    case _ => ScalarWritten(stack, tag, v);
  }

  lemma {:induction false} EntriesWritten(stack: seq<Container>, es: seq<Entry>)
    requires EncodeEntries(stack, es).Success?
    ensures WireEntries(es, EncodeEntries(stack, es).value)
    decreases EntriesSize(es), 0
  {
    if es != [] {
      ValueWritten(stack, es[0].tag, es[0].value);
      EntriesWritten(stack, es[1..]);
      var first, rest := Encode(stack, es[0].tag, es[0].value).value, EncodeEntries(stack, es[1..]).value;
      assert (first + rest)[..|first|] == first && (first + rest)[|first|..] == rest;
    }
  }

  lemma {:induction false} ElemsWritten(stack: seq<Container>, vs: seq<Value>)
    requires EncodeElems(stack, vs).Success?
    ensures WireElems(vs, EncodeElems(stack, vs).value)
    decreases ElemsSize(vs), 0
  {
    if vs != [] {
      ValueWritten(stack, Anonymous, vs[0]);
      ElemsWritten(stack, vs[1..]);
      var first, rest := Encode(stack, Anonymous, vs[0]).value, EncodeElems(stack, vs[1..]).value;
      assert (first + rest)[..|first|] == first && (first + rest)[|first|..] == rest;
    }
  }

  // ---- and no others ------------------------------------------------------------------------------

  lemma {:induction false} HeadUnique(a: seq<Byte>, b: seq<Byte>, t: int, tag: Tag)
    requires Starts(a, t, tag) && Starts(b, t, tag)
    ensures a == b <==> a[HeadSize(tag)..] == b[HeadSize(tag)..]
  {
    assert a == a[..HeadSize(tag)] + a[HeadSize(tag)..] && b == b[..HeadSize(tag)] + b[HeadSize(tag)..];
    assert a[..HeadSize(tag)] == b[..HeadSize(tag)];
  }

  lemma {:induction false} UnsignedUnique(tag: Tag, n: nat, a: seq<Byte>, b: seq<Byte>)
    requires UnsignedWire(tag, n, a) && UnsignedWire(tag, n, b)
    ensures a == b
  {
    var c: nat :| c < 4 && Starts(a, 0x04 + c, tag) && LeastUnsigned(a[HeadSize(tag)..], c, n);
    var d: nat :| d < 4 && Starts(b, 0x04 + d, tag) && LeastUnsigned(b[HeadSize(tag)..], d, n);
    LittleUnique(a[HeadSize(tag)..], b[HeadSize(tag)..], n, n);
    HeadUnique(a, b, 0x04 + c, tag);
  }

  lemma {:induction false} SignedUnique(tag: Tag, n: int, a: seq<Byte>, b: seq<Byte>)
    requires SignedWire(tag, n, a) && SignedWire(tag, n, b)
    ensures a == b
  {
    var c: nat :| c < 4 && Starts(a, 0x00 + c, tag) && LeastSigned(a[HeadSize(tag)..], c, n);
    var d: nat :| d < 4 && Starts(b, 0x00 + d, tag) && LeastSigned(b[HeadSize(tag)..], d, n);
    assert c == d;
    var m := if n < 0 then n + Pow256(WIDTHS[c]) else n;
    LittleUnique(a[HeadSize(tag)..], b[HeadSize(tag)..], m, m);
    HeadUnique(a, b, 0x00 + c, tag);
  }

  lemma {:induction false} StringUnique(tag: Tag, t: nat, content: seq<Byte>, a: seq<Byte>, b: seq<Byte>)
    requires StringWire(tag, t, content, a) && StringWire(tag, t, content, b)
    ensures a == b
  {
    var c: nat :| c < 4 && StringOf(tag, t, c, content, a);
    var d: nat :| d < 4 && StringOf(tag, t, d, content, b);
    assert c == d;
    SameString(tag, t, c, content, a, b);
  }

  lemma {:induction false} SameString(tag: Tag, t: nat, code: nat, content: seq<Byte>, a: seq<Byte>, b: seq<Byte>)
    requires code < 4 && StringOf(tag, t, code, content, a) && StringOf(tag, t, code, content, b)
    ensures a == b
  {
    var start := HeadSize(tag) + WIDTHS[code];
    LittleUnique(a[HeadSize(tag)..start], b[HeadSize(tag)..start], |content|, |content|);
    assert a[HeadSize(tag)..] == a[HeadSize(tag)..start] + a[start..];
    assert b[HeadSize(tag)..] == b[HeadSize(tag)..start] + b[start..];
    HeadUnique(a, b, t + code, tag);
  }

  lemma {:induction false} EnclosedUnique(tag: Tag, t: nat, a: seq<Byte>, b: seq<Byte>)
    requires Encloses(a, t, tag) && Encloses(b, t, tag) && Inside(a, tag) == Inside(b, tag)
    ensures a == b
  {
    assert a[HeadSize(tag)..] == Inside(a, tag) + [0x18] && b[HeadSize(tag)..] == Inside(b, tag) + [0x18];
    HeadUnique(a, b, t, tag);
  }

  lemma {:induction false} EntriesSplit(es: seq<Entry>, bs: seq<Byte>) returns (k: nat)
    requires es != [] && WireEntries(es, bs)
    ensures k <= |bs| && Wire(es[0].tag, es[0].value, bs[..k]) && WireEntries(es[1..], bs[k..])
    ensures bs == bs[..k] + bs[k..]
  {
    k :| 0 <= k <= |bs| && Wire(es[0].tag, es[0].value, bs[..k]) && WireEntries(es[1..], bs[k..]);
  }

  lemma {:induction false} ElemsSplit(vs: seq<Value>, bs: seq<Byte>) returns (k: nat)
    requires vs != [] && WireElems(vs, bs)
    ensures k <= |bs| && Wire(Anonymous, vs[0], bs[..k]) && WireElems(vs[1..], bs[k..])
    ensures bs == bs[..k] + bs[k..]
  {
    k :| 0 <= k <= |bs| && Wire(Anonymous, vs[0], bs[..k]) && WireElems(vs[1..], bs[k..]);
  }

  lemma {:induction false} WireUnique(tag: Tag, v: Value, a: seq<Byte>, b: seq<Byte>)
    requires Wire(tag, v, a) && Wire(tag, v, b)
    ensures a == b
    decreases Size(v), 1
  {
    match v
    case EnumMember(n) => UnsignedUnique(tag, n, a, b);
    case UInt(n) => UnsignedUnique(tag, n, a, b);
    case Int(n) => SignedUnique(tag, n, a, b);
    case Text(utf8) => StringUnique(tag, 0x0C, utf8, a, b);
    case Bytes(content) => StringUnique(tag, 0x10, content, a, b);
    case Dict(es) =>
      SortedSize(es);
      EntriesUnique(Sorted(es), Inside(a, tag), Inside(b, tag));
      EnclosedUnique(tag, 0x15, a, b);
    case Mapping(es) =>
      EntriesUnique(es, Inside(a, tag), Inside(b, tag));
      EnclosedUnique(tag, 0x15, a, b);
    case TlvList(es) =>
      EntriesUnique(es, Inside(a, tag), Inside(b, tag));
      EnclosedUnique(tag, 0x17, a, b);
    case Sequence(vs) =>
      ElemsUnique(vs, Inside(a, tag), Inside(b, tag));
      EnclosedUnique(tag, 0x16, a, b);
    case Null => HeadUnique(a, b, 0x14, tag);
    case Bool(x) => HeadUnique(a, b, if x then 0x09 else 0x08, tag);
    case Float32(_) => HeadUnique(a, b, 0x0A, tag);
    case Float64(_) => HeadUnique(a, b, 0x0B, tag);
  }

  lemma {:induction false} EntriesUnique(es: seq<Entry>, a: seq<Byte>, b: seq<Byte>)
    requires WireEntries(es, a) && WireEntries(es, b)
    ensures a == b
    decreases EntriesSize(es), 0
  {
    if es != [] {
      var j := EntriesSplit(es, a);
      var k := EntriesSplit(es, b);
      WireUnique(es[0].tag, es[0].value, a[..j], b[..k]);
      EntriesUnique(es[1..], a[j..], b[k..]);
    }
  }

  lemma {:induction false} ElemsUnique(vs: seq<Value>, a: seq<Byte>, b: seq<Byte>)
    requires WireElems(vs, a) && WireElems(vs, b)
    ensures a == b
    decreases ElemsSize(vs), 0
  {
    if vs != [] {
      var j := ElemsSplit(vs, a);
      var k := ElemsSplit(vs, b);
      WireUnique(Anonymous, vs[0], a[..j], b[..k]);
      ElemsUnique(vs[1..], a[j..], b[k..]);
    }
  }

  /** What the writer accepts it writes as the format has it, and not otherwise. */
  lemma {:induction false} WriterIsWire(stack: seq<Container>, tag: Tag, v: Value, bs: seq<Byte>)
    requires Encodable(stack, tag, v)
    ensures Encode(stack, tag, v) == Success(bs) <==> Wire(tag, v, bs)
  {
    WriterAccepts(stack, tag, v);
    ValueWritten(stack, tag, v);
    if Wire(tag, v, bs) {
      WireUnique(tag, v, bs, Encode(stack, tag, v).value);
    }
  }

  /** A dict's entries are written by ascending number, each once. */
  lemma {:induction false} SortedByNumber(es: seq<Entry>, i: nat, j: nat)
    requires ContextTags(es) && Distinct(es) && i < j < |es|
    ensures multiset(Sorted(es)) == multiset(es)
    ensures Sorted(es)[i].tag.Context? && Sorted(es)[j].tag.Context?
    ensures Sorted(es)[i].tag.number < Sorted(es)[j].tag.number
  {
    SortedPermutes(es);
    SortedAscends(es);
    SortedDistinct(es);
    assert Sorted(es)[i] in es && Sorted(es)[j] in es;
    DistinctTags(Sorted(es), i, j);
  }

  lemma {:induction false} DistinctTags(es: seq<Entry>, i: nat, j: nat)
    requires Distinct(es) && i < j < |es|
    ensures es[i].tag != es[j].tag
  {
    if i == 0 {
      assert es[j] == es[1..][j - 1];
    } else {
      DistinctTags(es[1..], i - 1, j - 1);
    }
  }

  // ---- the reader, on any bytes -------------------------------------------------------------------

  /** The element at pos has this value, which ends before next. */
  predicate Gives(r: Result<Step<Decoded>, Error>, value: Decoded, next: nat) {
    r == Success(Step(value, next))
  }

  /** The types without a payload, the floats, and those the reader does not know. */
  lemma {:induction false} ReadsFixed(tlv: seq<Byte>, pos: nat)
    requires pos <= |tlv|
    ensures Gives(ReadValue(tlv, pos, 0x14), DNull, pos) && Gives(ReadValue(tlv, pos, 0x18), DNull, pos)
    ensures Gives(ReadValue(tlv, pos, 0x08), DBool(false), pos) && Gives(ReadValue(tlv, pos, 0x09), DBool(true), pos)
    ensures pos + 4 <= |tlv| ==> Gives(ReadValue(tlv, pos, 0x0A), DFloat32(tlv[pos..pos + 4]), pos + 4)
    ensures pos + 8 <= |tlv| ==> Gives(ReadValue(tlv, pos, 0x0B), DFloat64(tlv[pos..pos + 8]), pos + 8)
    ensures pos + 4 > |tlv| ==> ReadValue(tlv, pos, 0x0A) == Failure(Truncated)
    ensures pos + 8 > |tlv| ==> ReadValue(tlv, pos, 0x0B) == Failure(Truncated)
    ensures forall t: nat | t == 0x17 || 0x18 < t < 0x20 :: ReadValue(tlv, pos, t) == Failure(UnsupportedType)
  {
  }

  /** Integers: any of the four widths, least or not. */
  lemma {:induction false} ReadsInteger(tlv: seq<Byte>, pos: nat, code: nat) returns (u: nat, n: int)
    requires pos <= |tlv| && code < 4
    ensures var next := pos + WIDTHS[code];
      if next > |tlv| then
        ReadValue(tlv, pos, 0x04 + code) == Failure(Truncated) == ReadValue(tlv, pos, 0x00 + code)
      else
        && IsLittle(tlv[pos..next], u) && Gives(ReadValue(tlv, pos, 0x04 + code), DUInt(u), next)
        && IsTwos(tlv[pos..next], n) && Gives(ReadValue(tlv, pos, 0x00 + code), DInt(n), next)
  {
    u, n := 0, 0;
    assert WidthOf(code) == WIDTHS[code];
    if pos + WIDTHS[code] <= |tlv| {
      var bs := tlv[pos..pos + WIDTHS[code]];
      FromLittleEndianValue(bs);
      u, n := FromLittleEndian(bs), UnpackSigned(bs);
    }
  }

  /** Strings: the announced length moves the cursor; the content ends with the buffer at the latest. */
  lemma {:induction false} ReadsString(tlv: seq<Byte>, pos: nat, code: nat) returns (length: nat)
    requires pos <= |tlv| && code < 4
    ensures var start := pos + WIDTHS[code];
      if start > |tlv| then
        ReadValue(tlv, pos, 0x0C + code) == Failure(Truncated) == ReadValue(tlv, pos, 0x10 + code)
      else
        var content := tlv[start..if start + length <= |tlv| then start + length else |tlv|];
        && IsLittle(tlv[pos..start], length)
        && Gives(ReadValue(tlv, pos, 0x0C + code), DText(content), start + length)
        && Gives(ReadValue(tlv, pos, 0x10 + code), DBytes(content), start + length)
  {
    length := 0;
    assert WidthOf(code) == WIDTHS[code];
    if pos + WIDTHS[code] <= |tlv| {
      FromLittleEndianValue(tlv[pos..pos + WIDTHS[code]]);
      length := FromLittleEndian(tlv[pos..pos + WIDTHS[code]]);
    }
  }

  /** Only the tag control 0x20 brings a tag byte; every other element has no tag. */
  lemma {:induction false} ReadsTag(tlv: seq<Byte>, pos: nat)
    requires pos < |tlv| && tlv[pos] % 32 != 0x18
    ensures var t := tlv[pos] % 32;
      if 0x20 <= tlv[pos] < 0x40 then
        if pos + 1 == |tlv| then ReadElement(tlv, pos) == Failure(Truncated)
        else ReadElement(tlv, pos) == AsItem(Some(tlv[pos + 1]), ReadValue(tlv, pos + 2, t))
      else ReadElement(tlv, pos) == AsItem(None, ReadValue(tlv, pos + 1, t))
  {
  }

  /** A structure or list ends at the marker 0x18 or at the end of the buffer. */
  lemma {:induction false} ItemsEnd(tlv: seq<Byte>, pos: nat)
    requires pos < |tlv| ==> tlv[pos] == 0x18
    ensures ReadItems(tlv, pos) == Success(Step([], if pos < |tlv| then pos + 1 else pos))
  {
    if pos < |tlv| {
      assert ReadValue(tlv, pos + 1, 0x18) == Success(Step(DNull, pos + 1));
      assert ReadElement(tlv, pos) == Success(Step(None, pos + 1));
    }
  }

  /** Each key is in the dict once. */
  lemma {:induction false} KeysOnce(d: seq<Field>, items: seq<Item>)
    requires DistinctKeys(d)
    ensures DistinctKeys(Store(d, items))
    decreases items
  {
    if items != [] {
      SetOnce(d, KeyOf(items[0].tag), items[0].value);
      KeysOnce(SetKey(d, KeyOf(items[0].tag), items[0].value), items[1..]);
    }
  }

  lemma {:induction false} SetOnce(d: seq<Field>, key: Key, value: Decoded)
    requires DistinctKeys(d)
    ensures DistinctKeys(SetKey(d, key, value))
    ensures forall f | f in SetKey(d, key, value) :: f.key == key || f in d
  {
    if d != [] && d[0].key != key {
      SetOnce(d[1..], key, value);
      var rest := SetKey(d[1..], key, value);
      assert ([d[0]] + rest)[1..] == rest;
    } else if d != [] {
      assert ([Field(key, value)] + d[1..])[1..] == d[1..];
    }
  }

  /** Of several items under one key the last one's value is kept. */
  lemma {:induction false} LastOneKept(d: seq<Field>, items: seq<Item>, i: nat)
    requires i < |items| && forall j | i < j < |items| :: KeyOf(items[j].tag) != KeyOf(items[i].tag)
    ensures Lookup(Store(d, items), KeyOf(items[i].tag)) == Some(items[i].value)
    decreases items
  {
    var e := SetKey(d, KeyOf(items[0].tag), items[0].value);
    if i > 0 {
      LastOneKept(e, items[1..], i - 1);
    } else {
      SetThenFound(d, KeyOf(items[0].tag), items[0].value, KeyOf(items[0].tag));
      OthersKept(e, items[1..], KeyOf(items[0].tag));
    }
  }

  lemma {:induction false} SetThenFound(d: seq<Field>, key: Key, value: Decoded, other: Key)
    ensures Lookup(SetKey(d, key, value), other) == if other == key then Some(value) else Lookup(d, other)
  {
    if d != [] && d[0].key != key {
      SetThenFound(d[1..], key, value, other);
    }
  }

  /** A key that no item has keeps its value, or stays absent. */
  lemma {:induction false} OthersKept(d: seq<Field>, items: seq<Item>, key: Key)
    requires forall i | 0 <= i < |items| :: KeyOf(items[i].tag) != key
    ensures Lookup(Store(d, items), key) == Lookup(d, key)
    decreases items
  {
    if items != [] {
      SetThenFound(d, KeyOf(items[0].tag), items[0].value, key);
      assert KeyOf(items[0].tag) != key;
      forall i | 0 <= i < |items[1..]| ensures KeyOf(items[1..][i].tag) != key {
        assert items[1..][i] == items[i + 1];
      }
      OthersKept(SetKey(d, KeyOf(items[0].tag), items[0].value), items[1..], key);
    }
  }

  // ---- what the writer refuses --------------------------------------------------------------------

  /** The error of a tag that does not suit its container, in the order of the checks. */
  lemma {:induction false} TagRefused(stack: seq<Container>, elementType: Byte, tag: Tag, width: nat)
    requires elementType < 0x18
    ensures var r := ControlAndTag(stack, elementType, tag, width);
      match tag
      case Anonymous => stack != [] && stack[0] == Structure ==> r == Failure(AnonymousTagInStructure)
      case Context(n) =>
        && (n < 0 || n > 255 ==> r == Failure(TagOutOfRange))
        && (0 <= n <= 255 && stack == [] ==> r == Failure(ContextTagAtTopLevel))
        && (0 <= n <= 255 && stack != [] && stack[0] == Array ==> r == Failure(ContextTagInArray))
      case Profile(_, _) => r == Failure(InvalidTag)
  {
  }

  /** Integers that no width holds are refused before their tag is looked at. */
  lemma {:induction false} IntegerRefused(stack: seq<Container>, tag: Tag, n: int)
    ensures n < 0 || n >= 0x1_0000_0000_0000_0000 ==> EncodeUnsigned(stack, tag, n) == Failure(IntegerOutOfRange)
    ensures n < -0x8000_0000_0000_0000 || n >= 0x8000_0000_0000_0000 ==>
      EncodeSigned(stack, tag, n) == Failure(IntegerOutOfRange)
  {
  }
}
