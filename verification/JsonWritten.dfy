/** What is written is itself standard JSON, exact for any reader, and what its letters stand for. */
module JsonWritten {
  import opened Wrappers
  import opened JsonText
  import opened JsonParse
  import opened JsonMap
  import opened JsonScanner
  import opened JsonExact
  import opened JsonReader
  import opened JsonReplace
  import opened JsonWriter
  import opened JsonRoundTrip

  // ---- letters and digits -------------------------------------------------------------------------

  /** The characters of sections 2 to 7 of RFC 8259. */
  lemma {:induction false} Alphabet(u: Unit)
    ensures QUOTE == '"' as int && BACKSLASH == '\\' as int && COMMA == ',' as int && COLON == ':' as int
    ensures LEFT_BRACKET == '[' as int && RIGHT_BRACKET == ']' as int
    ensures LEFT_BRACE == '{' as int && RIGHT_BRACE == '}' as int
    ensures MINUS == '-' as int && PLUS == '+' as int && DOT == '.' as int
    ensures MAX_SAFE == 0x1F_FFFF_FFFF_FFFF && |MARKER| == 10
    ensures forall i | 0 <= i < 10 :: MARKER[i] == "__BIGINT__"[i] as int
    ensures IsDigit(u) <==> '0' as int <= u <= '9' as int
    ensures IsExponentMark(u) <==> u == 'e' as int || u == 'E' as int
    ensures IsSpace(u) <==> u == ' ' as int || u == '\t' as int || u == '\n' as int || u == '\r' as int
  {
  }

  /** An escape letter stands for its control character or for itself; four hexadecimal digits,
      the highest first, for their code unit. */
  lemma {:induction false} Escapes(letter: EscapeLetter, a: HexDigit, b: HexDigit, c: HexDigit, d: HexDigit)
    ensures CharValue(Escape(letter)) ==
      if letter == 'b' as int then 8 else if letter == 'f' as int then 12 else if letter == 'n' as int then 10
      else if letter == 'r' as int then 13 else if letter == 't' as int then 9 else letter
    ensures CharValue(Hex(a, b, c, d)) == HexValue(a) * 0x1000 + HexValue(b) * 0x100 + HexValue(c) * 0x10 + HexValue(d)
  {
  }

  lemma {:induction false} HexDigits(u: HexDigit)
    ensures '0' as int <= u <= '9' as int ==> HexValue(u) == u - '0' as int
    ensures 'a' as int <= u <= 'f' as int ==> HexValue(u) == u - 'a' as int + 10
    ensures 'A' as int <= u <= 'F' as int ==> HexValue(u) == u - 'A' as int + 10
  {
  }

  /** Decimal digits, the highest first. */
  lemma {:induction false} DigitsJoin(a: seq<Digit>, b: seq<Digit>)
    ensures DigitsValue(a + b) == DigitsValue(a) * Pow10(|b|) + DigitsValue(b)
    decreases b
  {
    if b == [] {
      assert a + b == a;
    } else {
      var k := |b| - 1;
      assert (a + b)[..|a + b| - 1] == a + b[..k] && (a + b)[|a + b| - 1] == b[k];
      DigitsJoin(a, b[..k]);
      TimesTen(DigitsValue(a), Pow10(k));
    }
  }

  lemma {:induction false} TimesTen(x: int, p: int)
    ensures 10 * (x * p) == x * (10 * p)
  {
  }

  lemma {:induction false} OneDigit(d: Digit)
    ensures DigitsValue([d]) == d - '0' as int
  {
    assert [d][..0] == [];
  }

  /** A placeholder is 0x and lower-case hexadecimal digits, the highest first. */
  lemma {:induction false} HolderIsHex(n: Big)
    ensures Holder(n)[0] == '0' as int && Holder(n)[1] == 'x' as int && Holder(n)[2..] == HexText(n)
    ensures forall i | 0 <= i < |HexText(n)| ::
      '0' as int <= HexText(n)[i] <= '9' as int || 'a' as int <= HexText(n)[i] <= 'f' as int
    ensures HexNumber(HexText(n)) == n
  {
    HexLower(n);
    HexReadsBack(n);
  }

  lemma {:induction false} HexLower(n: nat)
    ensures forall i | 0 <= i < |HexText(n)| ::
      '0' as int <= HexText(n)[i] <= '9' as int || 'a' as int <= HexText(n)[i] <= 'f' as int
  {
    if n >= 16 {
      HexLower(n / 16);
    }
  }

  lemma {:induction false} HexPush(s: seq<HexDigit>, u: HexDigit)
    ensures HexNumber(s + [u]) == 16 * HexNumber(s) + HexValue(u)
  {
    assert (s + [u])[..|s|] == s;
  }

  /** Numbers are printed as they are, but negative zero is printed as zero. */
  lemma {:induction false} PrintedIs(n: Number)
    ensures Printed(n) ==
      if n.fraction.None? && n.exponent.None? && DigitsValue(n.digits) == 0 then Number(false, ['0' as int], None, None)
      else n
  {
    assert IntegerNumber(0).digits == [48];
  }

  // ---- repeated names -----------------------------------------------------------------------------

  function PropAt(ps: seq<Prop>, name: Text): Option<JsValue> {
    if ps == [] then None else if ps[0].name == name then Some(ps[0].value) else PropAt(ps[1..], name)
  }

  /** A property that is assigned has the new value, and the others keep theirs. */
  lemma {:induction false} PutThenFound(ps: seq<Prop>, name: Text, v: JsValue, other: Text)
    ensures PropAt(PutProp(ps, name, v), other) == if other == name then Some(v) else PropAt(ps, other)
  {
    if ps != [] && ps[0].name != name {
      PutThenFound(ps[1..], name, v, other);
    }
  }

  /** Of the members of one name the last one's value counts. */
  lemma {:induction false} LastMemberCounts(ms: seq<Member>, sofar: seq<Prop>, number: Number -> JsValue, i: nat)
    requires i < |ms| && forall j | i < j < |ms| :: CharsValue(ms[j].key) != CharsValue(ms[i].key)
    ensures PropAt(MembersValue(ms, sofar, number), CharsValue(ms[i].key)) == Some(Value(ms[i].elem.value, number))
    decreases ms
  {
    var first := Value(ms[0].elem.value, number);
    var next := PutProp(sofar, CharsValue(ms[0].key), first);
    if i > 0 {
      LastMemberCounts(ms[1..], next, number, i - 1);
    } else {
      PutThenFound(sofar, CharsValue(ms[0].key), first, CharsValue(ms[0].key));
      OtherNames(ms[1..], next, number, CharsValue(ms[0].key));
    }
  }

  lemma {:induction false} OtherNames(ms: seq<Member>, sofar: seq<Prop>, number: Number -> JsValue, name: Text)
    requires forall j | 0 <= j < |ms| :: CharsValue(ms[j].key) != name
    ensures PropAt(MembersValue(ms, sofar, number), name) == PropAt(sofar, name)
    decreases ms
  {
    if ms != [] {
      var v := Value(ms[0].elem.value, number);
      PutThenFound(sofar, CharsValue(ms[0].key), v, name);
      assert CharsValue(ms[0].key) != name;
      forall j | 0 <= j < |ms[1..]| ensures CharsValue(ms[1..][j].key) != name {
        assert ms[1..][j] == ms[j + 1];
      }
      OtherNames(ms[1..], PutProp(sofar, CharsValue(ms[0].key), v), number, name);
    }
  }

  // ---- the written text ---------------------------------------------------------------------------

  /** The value of the layout with the digits in place. */
  function PlacedValue(v: JsValue, style: Style, depth: nat, ns: seq<Big>): JsValue {
    Value(MapTree(Layout(v, style, depth), Settler(ns)), Exactly)
  }

  lemma {:induction false} PlacedNumberIs(n: Number, style: Style, depth: nat, ns: seq<Big>)
    requires !Large(n)
    ensures PlacedValue(VNumber(n), style, depth, ns) == VNumber(Printed(n))
  {
    SettleNonString(TNumber(Printed(n)), ns);
    assert Large(Printed(n)) <==> Large(n);
  }

  lemma {:induction false} PlacedBigIs(n: int, style: Style, depth: nat, ns: seq<Big>)
    requires Printable(VBigInt(n), style) && (n > MAX_SAFE ==> n in ns)
    ensures PlacedValue(VBigInt(n), style, depth, ns) == Normal(VBigInt(n))
  {
    if n > MAX_SAFE {
      SettleHolder(n, ns);
      BigIsLarge(n);
    } else {
      SettleNonString(TNumber(IntegerNumber(n)), ns);
    }
  }

  lemma {:induction false} PlacedStringIs(text: Text, style: Style, depth: nat, ns: seq<Big>)
    requires NoHolder(text, ns)
    ensures PlacedValue(VString(text), style, depth, ns) == VString(text)
  {
    SettleApart(text, ns);
    EscapeReadsBack(None, text);
  }

  lemma {:induction false} PlacedIs(v: JsValue, style: Style, depth: nat, ns: seq<Big>)
    requires WellNamed(v) && Printable(v, style) && AllStrings(v, ApartFrom(ns)) && Covers(ns, Bigs(v))
    ensures PlacedValue(v, style, depth, ns) == Normal(v)
    decreases v
  {
    match v
    case VWord(w) => SettleNonString(TWord(w), ns);
    case VNumber(n) => PlacedNumberIs(n, style, depth, ns);
    case VBigInt(n) =>
      assert n > MAX_SAFE ==> n in Bigs(v);
      PlacedBigIs(n, style, depth, ns);
    case VString(text) => PlacedStringIs(text, style, depth, ns);
    case VArray(items) => PlacedArrayIs(items, style, depth, ns);
    case VObject(props) => PlacedObjectIs(props, style, depth, ns);
  }

  function PlacedProps(ps: seq<Prop>, sofar: seq<Prop>, style: Style, depth: nat, ns: seq<Big>): seq<Prop> {
    MembersValue(MapMembers(LayoutProps(ps, style, depth), Settler(ns)), sofar, Exactly)
  }

  lemma {:induction false} ObjectPlaced(ps: seq<Prop>, style: Style, depth: nat, ns: seq<Big>)
    ensures PlacedValue(VObject(ps), style, depth, ns) == VObject(PlacedProps(ps, [], style, depth, ns))
  {
  }

  lemma {:induction false} PlacedObjectIs(ps: seq<Prop>, style: Style, depth: nat, ns: seq<Big>)
    requires Distinct(JsonRoundTrip.Names(ps)) && WellNamedProps(ps) && PrintableProps(ps, style)
    requires AllStringsProps(ps, ApartFrom(ns)) && Covers(ns, BigsProps(ps))
    ensures PlacedValue(VObject(ps), style, depth, ns) == VObject(NormalProps(ps))
    decreases ps, 1
  {
    assert JsonRoundTrip.Names([]) + JsonRoundTrip.Names(ps) == JsonRoundTrip.Names(ps);
    PlacedPropsAre(ps, [], style, depth, ns);
    ObjectPlaced(ps, style, depth, ns);
    assert [] + NormalProps(ps) == NormalProps(ps);
  }

  lemma {:induction false} PlacedArrayIs(vs: seq<JsValue>, style: Style, depth: nat, ns: seq<Big>)
    requires WellNamedItems(vs) && PrintableItems(vs, style) && AllStringsItems(vs, ApartFrom(ns))
    requires Covers(ns, BigsItems(vs))
    ensures PlacedValue(VArray(vs), style, depth, ns) == VArray(NormalItems(vs))
    decreases vs, 1
  {
    PlacedItemsAre(vs, style, depth, ns);
  }

  function PlacedItems(vs: seq<JsValue>, style: Style, depth: nat, ns: seq<Big>): seq<JsValue> {
    ElemsValue(MapElems(LayoutItems(vs, style, depth), Settler(ns)), Exactly)
  }

  lemma {:induction false} PlacedItemsAre(vs: seq<JsValue>, style: Style, depth: nat, ns: seq<Big>)
    requires WellNamedItems(vs) && PrintableItems(vs, style) && AllStringsItems(vs, ApartFrom(ns))
    requires Covers(ns, BigsItems(vs))
    ensures PlacedItems(vs, style, depth, ns) == NormalItems(vs)
    decreases vs, 0
  {
    if vs != [] {
      assert vs decreases to vs[0];
      CoversBoth(ns, Bigs(vs[0]), BigsItems(vs[1..]));
      PlacedIs(vs[0], style, depth + 1, ns);
      PlacedItemsAre(vs[1..], style, depth, ns);
      PlacedItemsHead(vs, style, depth, ns);
    }
  }

  lemma {:induction false} PlacedItemsHead(vs: seq<JsValue>, style: Style, depth: nat, ns: seq<Big>)
    requires vs != []
    ensures PlacedItems(vs, style, depth, ns)
         == [PlacedValue(vs[0], style, depth + 1, ns)] + PlacedItems(vs[1..], style, depth, ns)
  {
    var es := LayoutItems(vs, style, depth);
    var mapped := MapElems(es, Settler(ns));
    assert es[0].value == Layout(vs[0], style, depth + 1) && es[1..] == LayoutItems(vs[1..], style, depth);
    assert mapped[0] == MapElem(es[0], Settler(ns)) && mapped[1..] == MapElems(es[1..], Settler(ns));
  }

  /** What holds of all properties holds of the first and of the others. */
  lemma {:induction false} PropsSplit(ps: seq<Prop>, style: Style, ns: seq<Big>)
    requires ps != [] && WellNamedProps(ps) && PrintableProps(ps, style) && AllStringsProps(ps, ApartFrom(ns))
    requires Covers(ns, BigsProps(ps))
    ensures WellNamed(ps[0].value) && Printable(ps[0].value, style) && AllStrings(ps[0].value, ApartFrom(ns))
    ensures Covers(ns, Bigs(ps[0].value)) && NoHolder(ps[0].name, ns)
    ensures WellNamedProps(ps[1..]) && PrintableProps(ps[1..], style) && AllStringsProps(ps[1..], ApartFrom(ns))
    ensures Covers(ns, BigsProps(ps[1..]))
  {
    CoversBoth(ns, Bigs(ps[0].value), BigsProps(ps[1..]));
  }

  lemma {:induction false} PlacedPropsAre(ps: seq<Prop>, sofar: seq<Prop>, style: Style, depth: nat, ns: seq<Big>)
    requires WellNamedProps(ps) && PrintableProps(ps, style) && AllStringsProps(ps, ApartFrom(ns))
    requires Covers(ns, BigsProps(ps)) && Distinct(JsonRoundTrip.Names(sofar) + JsonRoundTrip.Names(ps))
    ensures PlacedProps(ps, sofar, style, depth, ns) == sofar + NormalProps(ps)
    decreases ps, 0
  {
    if ps == [] {
      assert sofar + [] == sofar;
    } else {
      assert ps decreases to ps[0];
      PropsSplit(ps, style, ns);
      PlacedIs(ps[0].value, style, depth + 1, ns);
      var p := Prop(ps[0].name, Normal(ps[0].value));
      FirstPropPlaced(ps, p, sofar, style, depth, ns);
      PlacedPropsAre(ps[1..], sofar + [p], style, depth, ns);
      NormalHead(ps, p, sofar);
    }
  }

  lemma {:induction false} FirstPropPlaced(ps: seq<Prop>, p: Prop, sofar: seq<Prop>, style: Style, depth: nat,
                                           ns: seq<Big>)
    requires ps != [] && p.name == ps[0].name && NoHolder(ps[0].name, ns)
    requires PlacedValue(ps[0].value, style, depth + 1, ns) == p.value
    requires Distinct(JsonRoundTrip.Names(sofar) + JsonRoundTrip.Names(ps))
    ensures PlacedProps(ps, sofar, style, depth, ns) == PlacedProps(ps[1..], sofar + [p], style, depth, ns)
    ensures Distinct(JsonRoundTrip.Names(sofar + [p]) + JsonRoundTrip.Names(ps[1..]))
  {
    PlacedPropsHead(ps, sofar, style, depth, ns);
    NextSofar(sofar, p, ps);
  }

  lemma {:induction false} NormalHead(ps: seq<Prop>, p: Prop, sofar: seq<Prop>)
    requires ps != [] && p == Prop(ps[0].name, Normal(ps[0].value))
    ensures sofar + [p] + NormalProps(ps[1..]) == sofar + NormalProps(ps)
  {
    assert NormalProps(ps) == [p] + NormalProps(ps[1..]);
  }

  lemma {:induction false} NextSofar(sofar: seq<Prop>, p: Prop, ps: seq<Prop>)
    requires ps != [] && p.name == ps[0].name
    requires Distinct(JsonRoundTrip.Names(sofar) + JsonRoundTrip.Names(ps))
    ensures PutProp(sofar, p.name, p.value) == sofar + [p]
    ensures JsonRoundTrip.Names(sofar + [p]) + JsonRoundTrip.Names(ps[1..])
         == JsonRoundTrip.Names(sofar) + JsonRoundTrip.Names(ps)
  {
    FirstFresh(sofar, ps);
    PutFresh(sofar, p.name, p.value);
    NextNames(sofar, p, ps);
  }

  lemma {:induction false} NextNames(sofar: seq<Prop>, p: Prop, ps: seq<Prop>)
    requires ps != [] && p.name == ps[0].name
    ensures JsonRoundTrip.Names(sofar + [p]) + JsonRoundTrip.Names(ps[1..]) == JsonRoundTrip.Names(sofar) + JsonRoundTrip.Names(ps)
  {
    NamesJoin(sofar, [p]);
    assert [p][1..] == [] && JsonRoundTrip.Names([p]) == [ps[0].name];
  }

  lemma {:induction false} PropsLaidOut(ps: seq<Prop>, style: Style, depth: nat)
    requires ps != []
    ensures var ms := LayoutProps(ps, style, depth);
      && |ms| > 0 && ms[1..] == LayoutProps(ps[1..], style, depth)
      && ms[0].key == EscapeText(ps[0].name) && ms[0].elem.value == Layout(ps[0].value, style, depth + 1)
  {
  }

  lemma {:induction false} NameSettled(m: Member, name: Text, ns: seq<Big>)
    requires m.key == EscapeText(name) && NoHolder(name, ns)
    ensures CharsValue(MapMember(m, Settler(ns)).key) == name
  {
    SettleApart(name, ns);
    EscapeReadsBack(None, name);
  }

  lemma {:induction false} FirstMember(ms: seq<Member>, sofar: seq<Prop>, ns: seq<Big>)
    requires ms != []
    ensures var m := MapMember(ms[0], Settler(ns));
      MembersValue(MapMembers(ms, Settler(ns)), sofar, Exactly)
      == MembersValue(MapMembers(ms[1..], Settler(ns)),
                      PutProp(sofar, CharsValue(m.key), Value(m.elem.value, Exactly)), Exactly)
  {
    var mapped := MapMembers(ms, Settler(ns));
    assert mapped[0] == MapMember(ms[0], Settler(ns)) && mapped[1..] == MapMembers(ms[1..], Settler(ns));
  }

  lemma {:induction false} PlacedPropsHead(ps: seq<Prop>, sofar: seq<Prop>, style: Style, depth: nat, ns: seq<Big>)
    requires ps != [] && NoHolder(ps[0].name, ns)
    ensures var v := PlacedValue(ps[0].value, style, depth + 1, ns);
      PlacedProps(ps, sofar, style, depth, ns)
      == PlacedProps(ps[1..], PutProp(sofar, ps[0].name, v), style, depth, ns)
  {
    var ms := LayoutProps(ps, style, depth);
    PropsLaidOut(ps, style, depth);
    NameSettled(ms[0], ps[0].name, ns);
    FirstMember(ms, sofar, ns);
  }

  // ---- its names are strings ----------------------------------------------------------------------

  lemma {:induction false} SettlerTame(ns: seq<Big>)
    ensures Tame(Settler(ns))
  {
    forall t: Token ensures if t.TMark? then Settler(ns)(t) == t else !Settler(ns)(t).TMark? {
      if t.TMark? {
        SettleNonString(t, ns);
      } else {
        SettleNoMark(t, ns);
      }
    }
  }

  lemma {:induction false} NamesSettled(v: JsValue, style: Style, depth: nat, ns: seq<Big>)
    requires AllStrings(v, ApartFrom(ns))
    ensures NamesKept(Layout(v, style, depth), Settler(ns))
    decreases v
  {
    match v
    case VArray(items) => ItemNamesSettled(items, style, depth, ns);
    case VObject(props) => PropNamesSettled(props, style, depth, ns);
    case _ =>
  }

  lemma {:induction false} ItemNamesSettled(vs: seq<JsValue>, style: Style, depth: nat, ns: seq<Big>)
    requires AllStringsItems(vs, ApartFrom(ns))
    ensures ElemsNamesKept(LayoutItems(vs, style, depth), Settler(ns))
    decreases vs
  {
    if vs != [] {
      assert vs decreases to vs[0];
      NamesSettled(vs[0], style, depth + 1, ns);
      ItemNamesSettled(vs[1..], style, depth, ns);
      var es := LayoutItems(vs, style, depth);
      assert es[0].value == Layout(vs[0], style, depth + 1) && es[1..] == LayoutItems(vs[1..], style, depth);
    }
  }

  lemma {:induction false} PropNamesSettled(ps: seq<Prop>, style: Style, depth: nat, ns: seq<Big>)
    requires AllStringsProps(ps, ApartFrom(ns))
    ensures MembersNamesKept(LayoutProps(ps, style, depth), Settler(ns))
    decreases ps
  {
    if ps != [] {
      assert ps decreases to ps[0];
      NamesSettled(ps[0].value, style, depth + 1, ns);
      PropNamesSettled(ps[1..], style, depth, ns);
      SettleApart(ps[0].name, ns);
      PropsLaidOut(ps, style, depth);
    }
  }

  /** Unless its strings meet its own placeholders, a value is written as one JSON document, in which
      every integer stands with all its digits: the document's exact value is the value. */
  lemma {:induction false} WritesExactly(v: JsValue, style: Style)
    requires WellNamed(v) && Collisionless(v) && Printable(v, style)
    ensures var doc := MapElem(Document(v, style), Settler(Bigs(v)));
      Write(v, style) == DocumentText(doc) && Value(doc.value, Exactly) == Normal(v)
  {
    var ns := Bigs(v);
    var doc := Document(v, style);
    DocumentSeparated(doc);
    DocumentUntangled(v, style, ns);
    ReplaceEachToken(ElemTokens(doc), ns);
    SettlerTame(ns);
    NamesSettled(v, style, 0, ns);
    ElemMaps(doc, Settler(ns));
    PlacedIs(v, style, 0, ns);
  }

  // ---- indentation --------------------------------------------------------------------------------

  /** 0 to 10 spaces a level; without any there are no line breaks. */
  lemma {:induction false} BreakText(spaces: int, rounded: int -> Number, depth: nat)
    ensures var gap := if spaces < 0 then 0 else if spaces > 10 then 10 else spaces;
      var text := Newline(Style(Gap(spaces), rounded), depth);
      if gap == 0 then text == []
      else |text| == 1 + gap * depth && text[0] == 10 && forall i | 1 <= i < |text| :: text[i] == 32
  {
  }

  /** Each item on a line of its own, one level deeper, and the closing bracket on the next line. */
  lemma {:induction false} ItemsIndented(vs: seq<JsValue>, style: Style, depth: nat, i: nat)
    requires i < |vs|
    ensures var es := LayoutItems(vs, style, depth);
      && |es| == |vs| && es[i].before == Newline(style, depth + 1) && es[i].value == Layout(vs[i], style, depth + 1)
      && es[i].after == if i == |vs| - 1 then Newline(style, depth) else []
    decreases vs
  {
    if i > 0 {
      ItemsIndented(vs[1..], style, depth, i - 1);
    } else if |vs| > 1 {
      ItemsIndented(vs[1..], style, depth, 0);
    }
  }

  /** So each property, with a space behind its colon if there is indentation at all. */
  lemma {:induction false} PropsIndented(ps: seq<Prop>, style: Style, depth: nat, i: nat)
    requires i < |ps|
    ensures var ms := LayoutProps(ps, style, depth);
      && |ms| == |ps| && ms[i].before == Newline(style, depth + 1) && ms[i].mid == []
      && ms[i].key == EscapeText(ps[i].name) && ms[i].elem.value == Layout(ps[i].value, style, depth + 1)
      && ms[i].elem.before == (if style.gap == 0 then [] else [32])
      && ms[i].elem.after == if i == |ps| - 1 then Newline(style, depth) else []
    decreases ps
  {
    if i > 0 {
      PropsIndented(ps[1..], style, depth, i - 1);
    } else if |ps| > 1 {
      PropsIndented(ps[1..], style, depth, 0);
    }
  }
}
