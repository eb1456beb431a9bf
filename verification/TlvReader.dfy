/** `TLVReader`: the cursor parser, total on arbitrary bytes. */
module TlvReader {
  import opened Wrappers
  import opened TlvFormat

  /** A value with its context tag, if it has one. */
  datatype Item = Item(tag: Option<Byte>, value: Decoded)

  /** A result together with the cursor after it. */
  datatype Step<+T> = Step(value: T, next: nat)

  /** tlv[pos : pos + n], which Python clamps to the buffer. */
  function Slice(tlv: seq<Byte>, pos: nat, n: nat): (r: seq<Byte>)
    ensures |r| <= n
    ensures pos + n <= |tlv| ==> r == tlv[pos..pos + n]
  {
    var lo := if pos <= |tlv| then pos else |tlv|;
    var hi := if pos + n <= |tlv| then pos + n else |tlv|;
    tlv[lo..hi]
  }

  /** struct.unpack raises on a short slice. */
  function Unpack(tlv: seq<Byte>, pos: nat, n: nat): (r: Result<seq<Byte>, Error>)
    ensures r.Success? ==> |r.value| == n && pos + n <= |tlv|
  {
    if pos + n <= |tlv| then Success(tlv[pos..pos + n]) else Failure(Truncated)
  }

  /** 1, 2, 4 or 8: the width the low two bits of a sized type stand for. */
  function WidthOf(code: nat): nat {
    if code == 0 then 1 else if code == 1 then 2 else if code == 2 then 4 else 8
  }

  /** `_get`'s loop body: control byte, tag, value; None for the end marker. */
  function ReadElement(tlv: seq<Byte>, pos: nat): (r: Result<Step<Option<Item>>, Error>)
    requires pos < |tlv|
    ensures r.Success? ==> pos < r.value.next
    decreases |tlv| - pos, 0
  {
    var elementType := tlv[pos] % 32;
    var tagged := tlv[pos] / 32 * 32 == TAG_CONTEXT;
    if tagged && pos + 1 >= |tlv| then Failure(Truncated)
    else
      var tag := if tagged then Some(tlv[pos + 1]) else None;
      var v :- ReadValue(tlv, if tagged then pos + 2 else pos + 1, elementType);
      Success(Step(if elementType == END_OF_CONTAINER then None else Some(Item(tag, v.value)), v.next))
  }

  /** _decodeVal */
  function ReadValue(tlv: seq<Byte>, pos: nat, t: nat): (r: Result<Step<Decoded>, Error>)
    requires pos <= |tlv| && t < 32
    ensures r.Success? ==> pos <= r.value.next
    decreases |tlv| - pos, 2
  {
    if t == STRUCTURE then
      var items :- ReadItems(tlv, pos);
      Success(Step(DStruct(Store([], items.value)), items.next))
    else if t == ARRAY then
      var items :- ReadItems(tlv, pos);
      Success(Step(DArray(Values(items.value)), items.next))
    else if t == NULL || t == END_OF_CONTAINER then Success(Step(DNull, pos))
    else if t == BOOLEAN + 1 then Success(Step(DBool(true), pos))
    else if t == BOOLEAN then Success(Step(DBool(false), pos))
    else if t <= 0x03 then
      var bs :- Unpack(tlv, pos, WidthOf(t));
      Success(Step(DInt(UnpackSigned(bs)), pos + |bs|))
    else if t <= 0x07 then
      var bs :- Unpack(tlv, pos, WidthOf(t - UNSIGNED_INTEGER));
      Success(Step(DUInt(FromLittleEndian(bs)), pos + |bs|))
    else if t == 0x0A then
      var bs :- Unpack(tlv, pos, 4);
      Success(Step(DFloat32(bs), pos + 4))
    else if t == 0x0B then
      var bs :- Unpack(tlv, pos, 8);
      Success(Step(DFloat64(bs), pos + 8))
    else if 0x0C <= t <= 0x0F then
      var s :- ReadString(tlv, pos, WidthOf(t - UTF8_STRING));
      Success(Step(DText(s.value), s.next))
    else if 0x10 <= t <= 0x13 then
      var s :- ReadString(tlv, pos, WidthOf(t - BYTE_STRING));
      Success(Step(DBytes(s.value), s.next))
    else Failure(UnsupportedType)
  }

  /** A length, then that many bytes; a string cut short by the end of the buffer is kept
      as far as it goes, and the cursor still moves by the announced length. */
  function ReadString(tlv: seq<Byte>, pos: nat, width: nat): (r: Result<Step<seq<Byte>>, Error>)
    ensures r.Success? ==> pos + width <= r.value.next
  {
    var bs :- Unpack(tlv, pos, width);
    var length := FromLittleEndian(bs);
    Success(Step(Slice(tlv, pos + width, length), pos + width + length))
  }

  /** `_get`: elements up to an end marker or the end of the buffer. */
  function ReadItems(tlv: seq<Byte>, pos: nat): (r: Result<Step<seq<Item>>, Error>)
    ensures r.Success? ==> pos <= r.value.next
    decreases |tlv| - pos, 1
  {
    if pos >= |tlv| then Success(Step([], pos))
    else
      var first :- ReadElement(tlv, pos);
      if first.value.None? then Success(Step([], first.next))
      else
        var rest :- ReadItems(tlv, first.next);
        Success(Step([first.value.value] + rest.value, rest.next))
  }

  function KeyOf(tag: Option<Byte>): Key {
    match tag
    case None => Any
    case Some(n) => Tagged(n)
  }

  /** out[key] = value on a Python dict: an existing key keeps its place. */
  function SetKey(d: seq<Field>, key: Key, value: Decoded): (r: seq<Field>)
  {
    if d == [] then [Field(key, value)]
    else if d[0].key == key then [Field(key, value)] + d[1..]
    else [d[0]] + SetKey(d[1..], key, value)
  }

  /** A structure's items stored one after the other into a dict. */
  function Store(d: seq<Field>, items: seq<Item>): seq<Field>
    decreases items
  {
    if items == [] then d
    else Store(SetKey(d, KeyOf(items[0].tag), items[0].value), items[1..])
  }

  function Values(items: seq<Item>): (vs: seq<Decoded>)
  {
    if items == [] then [] else [items[0].value] + Values(items[1..])
  }

  /** `TLVReader(tlv).get()`: the dict it returns and the final cursor. */
  function Get(tlv: seq<Byte>): Result<Step<seq<Field>>, Error> {
    var items :- ReadItems(tlv, 0);
    Success(Step(Store([], items.value), items.next))
  }

  /** `out`: the dict or list that `_get` fills in place. */
  datatype Out = IntoDict(d: seq<Field>) | IntoList(vs: seq<Decoded>)

  function Fill(out: Out, items: seq<Item>): (r: Out)
    ensures out == IntoList([]) ==> r == IntoList(Values(items))
  {
    match out
    case IntoDict(d) => IntoDict(Store(d, items))
    case IntoList(vs) => assert [] + Values(items) == Values(items); IntoList(vs + Values(items))
  }

  class TLVReader {
    const tlv: seq<Byte>
    var bytesRead: nat

    constructor (tlv: seq<Byte>)
      ensures this.tlv == tlv && bytesRead == 0
    {
      this.tlv := tlv;
      bytesRead := 0;
    }

    method Advance(n: nat) returns (r: Result<seq<Byte>, Error>)
      modifies this`bytesRead
      ensures r == Unpack(tlv, old(bytesRead), n)
      ensures bytesRead == if r.Success? then old(bytesRead) + n else old(bytesRead)
    {
      r := Unpack(tlv, bytesRead, n);
      if r.Success? { bytesRead := bytesRead + n; }
    }

    method TakeString(width: nat) returns (r: Result<seq<Byte>, Error>)
      modifies this`bytesRead
      ensures match ReadString(tlv, old(bytesRead), width)
              case Success(s) => r == Success(s.value) && bytesRead == s.next
              case Failure(e) => r == Failure(e)
    {
      var bs :- Advance(width);
      var length := FromLittleEndian(bs);
      r := Success(Slice(tlv, bytesRead, length));
      bytesRead := bytesRead + length;
    }

    /** _decodeControlAndTag: element type and tag. */
    method DecodeControlAndTag() returns (t: nat, r: Result<Option<Byte>, Error>)
      requires bytesRead < |tlv|
      modifies this`bytesRead
      ensures t == tlv[old(bytesRead)] % 32
      ensures tlv[old(bytesRead)] / 32 * 32 != TAG_CONTEXT ==> r == Success(None) && bytesRead == old(bytesRead) + 1
      ensures tlv[old(bytesRead)] / 32 * 32 == TAG_CONTEXT ==>
                if old(bytesRead) + 1 < |tlv|
                then r == Success(Some(tlv[old(bytesRead) + 1])) && bytesRead == old(bytesRead) + 2
                else r == Failure(Truncated)
    {
      var control := tlv[bytesRead];
      t := control % 32;
      bytesRead := bytesRead + 1;
      if control / 32 * 32 == TAG_CONTEXT {
        var bs := Advance(1);
        if bs.Failure? { return t, Failure(bs.error); }
        return t, Success(Some(bs.value[0]));
      }
      return t, Success(None);
    }

    method DecodeVal(t: nat) returns (r: Result<Decoded, Error>)
      requires bytesRead <= |tlv| && t < 32
      modifies this`bytesRead
      ensures match ReadValue(tlv, old(bytesRead), t)
              case Success(v) => r == Success(v.value) && bytesRead == v.next
              case Failure(e) => r == Failure(e)
      decreases |tlv| - bytesRead, 1
    {
      if t == STRUCTURE {
        var out :- GetInto(IntoDict([]));
        r := Success(DStruct(out.d));
      } else if t == ARRAY {
        var out :- GetInto(IntoList([]));
        r := Success(DArray(out.vs));
      } else if t == NULL || t == END_OF_CONTAINER {
        r := Success(DNull);
      } else if t == BOOLEAN + 1 {
        r := Success(DBool(true));
      } else if t == BOOLEAN {
        r := Success(DBool(false));
      } else if t <= 0x03 {
        var bs :- Advance(WidthOf(t));
        r := Success(DInt(UnpackSigned(bs)));
      } else if t <= 0x07 {
        var bs :- Advance(WidthOf(t - UNSIGNED_INTEGER));
        r := Success(DUInt(FromLittleEndian(bs)));
      } else if t == 0x0A {
        var bs :- Advance(4);
        r := Success(DFloat32(bs));
      } else if t == 0x0B {
        var bs :- Advance(8);
        r := Success(DFloat64(bs));
      } else if 0x0C <= t <= 0x0F {
        var s :- TakeString(WidthOf(t - UTF8_STRING));
        r := Success(DText(s));
      } else if 0x10 <= t <= 0x13 {
        var s :- TakeString(WidthOf(t - BYTE_STRING));
        r := Success(DBytes(s));
      } else {
        r := Failure(UnsupportedType);
      }
    }

    /** `_get`: fill `out` until an end marker or the end of the buffer. */
    method GetInto(init: Out) returns (r: Result<Out, Error>)
      modifies this`bytesRead
      ensures match ReadItems(tlv, old(bytesRead))
              case Success(items) => r == Success(Fill(init, items.value)) && bytesRead == items.next
              case Failure(e) => r == Failure(e)
      decreases |tlv| - bytesRead, 0
    {
      var out := init;
      ghost var start := ReadItems(tlv, bytesRead);
      ghost var done: seq<Item> := [];
      FollowingNone(start);
      while bytesRead < |tlv|
        invariant old(bytesRead) <= bytesRead
        invariant out == Fill(init, done)
        invariant start == Following(done, ReadItems(tlv, bytesRead))
        decreases |tlv| - bytesRead
      {
        var t, tag := DecodeControlAndTag();
        if tag.Failure? { return Failure(tag.error); }
        var value :- DecodeVal(t);
        if t == END_OF_CONTAINER { break; }
        FillOne(init, done, Item(tag.value, value));
        FollowingOne(done, Item(tag.value, value), ReadItems(tlv, bytesRead));
        done := done + [Item(tag.value, value)];
        match out {
          case IntoDict(d) => out := IntoDict(SetKey(d, KeyOf(tag.value), value));
          case IntoList(vs) => out := IntoList(vs + [value]);
        }
      }
      assert done + [] == done;
      return Success(out);
    }

    /** `get` */
    method GetAll() returns (r: Result<seq<Field>, Error>)
      requires bytesRead == 0
      modifies this`bytesRead
      ensures match Get(tlv)
              case Success(d) => r == Success(d.value) && bytesRead == d.next
              case Failure(e) => r == Failure(e)
    {
      var out :- GetInto(IntoDict([]));
      return Success(out.d);
    }
  }

  function Following(done: seq<Item>, rest: Result<Step<seq<Item>>, Error>): Result<Step<seq<Item>>, Error> {
    match rest
    case Success(s) => Success(Step(done + s.value, s.next))
    case Failure(e) => Failure(e)
  }

  lemma {:induction false} FollowingNone(rest: Result<Step<seq<Item>>, Error>)
    ensures Following([], rest) == rest
  {
    if rest.Success? {
      assert [] + rest.value.value == rest.value.value;
    }
  }

  lemma {:induction false} FollowingOne(done: seq<Item>, item: Item, rest: Result<Step<seq<Item>>, Error>)
    ensures Following(done + [item], rest) == Following(done, Following([item], rest))
  {
    if rest.Success? {
      assert done + [item] + rest.value.value == done + ([item] + rest.value.value);
    }
  }

  lemma {:induction false} FillOne(out: Out, done: seq<Item>, item: Item)
    ensures Fill(out, done + [item]) ==
            match Fill(out, done)
            case IntoDict(d) => IntoDict(SetKey(d, KeyOf(item.tag), item.value))
            case IntoList(vs) => IntoList(vs + [item.value])
  {
    if out.IntoDict? {
      StoreOne(out.d, done, item);
    } else {
      ValuesOne(done, item);
    }
  }

  lemma {:induction false} StoreOne(d: seq<Field>, done: seq<Item>, item: Item)
    ensures Store(d, done + [item]) == SetKey(Store(d, done), KeyOf(item.tag), item.value)
    decreases done
  {
    if done == [] {
      assert Store(d, [item]) == Store(SetKey(d, KeyOf(item.tag), item.value), [item][1..]);
    } else {
      assert (done + [item])[1..] == done[1..] + [item];
      StoreOne(SetKey(d, KeyOf(done[0].tag), done[0].value), done[1..], item);
    }
  }

  lemma {:induction false} ValuesOne(done: seq<Item>, item: Item)
    ensures Values(done + [item]) == Values(done) + [item.value]
  {
    if done != [] {
      assert (done + [item])[1..] == done[1..] + [item];
      ValuesOne(done[1..], item);
    }
  }
}
