/** Writing JSON with big integers: the standard serializer prints a placeholder string for
    each big integer beyond the safe range; a text search then puts its digits in place. */
module JsonWriter {
  import opened Wrappers
  import opened JsonText
  import opened JsonParse
  import opened JsonScanner
  import opened JsonReader
  import opened JsonReplace

  type Big = n: int | n > MAX_SAFE witness MAX_SAFE + 1

  // ---- placeholders ---------------------------------------------------------------------------

  function HexDigitOf(v: int): (u: HexDigit)
    requires 0 <= v < 16
    ensures HexValue(u) == v
  {
    if v < 10 then 48 + v else 87 + v
  }

  function HexText(n: nat): (s: seq<HexDigit>)
    ensures s != []
  {
    if n < 16 then [HexDigitOf(n)] else HexText(n / 16) + [HexDigitOf(n % 16)]
  }

  function HexNumber(s: seq<HexDigit>): int {
    if s == [] then 0 else 16 * HexNumber(s[..|s| - 1]) + HexValue(s[|s| - 1])
  }

  lemma {:induction false} HexReadsBack(n: nat)
    ensures HexNumber(HexText(n)) == n
  {
    var s := HexText(n);
    if n < 16 {
      assert s[..0] == [];
    } else {
      HexReadsBack(n / 16);
      assert s[..|s| - 1] == HexText(n / 16);
    }
  }

  /** 0x and the hexadecimal digits. */
  function Holder(n: Big): (s: Placeholder)
    ensures |s| > 2
  {
    var prefix: seq<Unescaped> := [48, 120];
    prefix + HexText(n)
  }

  lemma {:induction false} HolderInjective(m: Big, n: Big)
    requires Holder(m) == Holder(n)
    ensures m == n
  {
    assert Holder(m)[2..] == HexText(m) && Holder(n)[2..] == HexText(n);
    HexReadsBack(m);
    HexReadsBack(n);
  }

  // ---- the standard serializer ----------------------------------------------------------------

  predicate IsHigh(u: Unit) {
    0xD800 <= u < 0xDC00
  }

  predicate IsLow(u: Unit) {
    0xDC00 <= u < 0xE000
  }

  function UnicodeEscape(u: Unit): Char {
    var n: int := u;
    var high := n / 16 / 16;
    Hex(HexDigitOf(high / 16), HexDigitOf(high % 16), HexDigitOf(n / 16 % 16), HexDigitOf(n % 16))
  }

  /** Controls, quotation marks, backslashes and lone surrogates are escaped. */
  function EscapeUnit(previous: Option<Unit>, u: Unit, next: Option<Unit>): Char {
    if u == QUOTE || u == BACKSLASH then Escape(u)
    else if u == 8 then Escape(98)
    else if u == 9 then Escape(116)
    else if u == 10 then Escape(110)
    else if u == 12 then Escape(102)
    else if u == 13 then Escape(114)
    else if u < 0x20 then UnicodeEscape(u)
    else if IsHigh(u) && !(next.Some? && IsLow(next.value)) then UnicodeEscape(u)
    else if IsLow(u) && !(previous.Some? && IsHigh(previous.value)) then UnicodeEscape(u)
    else Plain(u)
  }

  function EscapeAfter(previous: Option<Unit>, s: Text): (cs: seq<Char>)
    ensures |cs| == |s|
    decreases s
  {
    if s == [] then []
    else [EscapeUnit(previous, s[0], if |s| > 1 then Some(s[1]) else None)] + EscapeAfter(Some(s[0]), s[1..])
  }

  function EscapeText(s: Text): seq<Char> {
    EscapeAfter(None, s)
  }

  /** The indentation step, and the literal that Number(bigint) prints as below the safe range. */
  datatype Style = Style(gap: nat, rounded: int -> Number)

  /** The serializer takes 0 to 10 spaces. */
  function Gap(spaces: int): nat {
    if spaces < 0 then 0 else if spaces > 10 then 10 else spaces
  }

  function Blanks(n: nat): seq<Space> {
    seq(n, _ => 32)
  }

  function Newline(style: Style, depth: nat): seq<Space> {
    if style.gap == 0 then [] else [10] + Blanks(style.gap * depth)
  }

  /** Negative zero prints as zero. */
  function Printed(n: Number): Number {
    if IsInteger(n) && IntegerValue(n) == 0 then IntegerNumber(0) else n
  }

  function PrintedBigInt(n: int, style: Style): Json {
    if n > MAX_SAFE then JString(EscapeText(Holder(n)))
    else if n >= -MAX_SAFE then JNumber(IntegerNumber(n))
    else JNumber(style.rounded(n))
  }

  /** The syntax tree the serializer prints. */
  function Layout(v: JsValue, style: Style, depth: nat): Json {
    match v
    case VWord(w) => JWord(w)
    case VNumber(n) => JNumber(Printed(n))
    case VBigInt(n) => PrintedBigInt(n, style)
    case VString(text) => JString(EscapeText(text))
    case VArray(items) => JArray([], LayoutItems(items, style, depth))
    case VObject(props) => JObject([], LayoutProps(props, style, depth))
  }

  function LayoutItems(vs: seq<JsValue>, style: Style, depth: nat): seq<Elem> {
    if vs == [] then []
    else
      assert vs decreases to vs[0];
      var after := if |vs| == 1 then Newline(style, depth) else [];
      [Elem(Newline(style, depth + 1), Layout(vs[0], style, depth + 1), after)] + LayoutItems(vs[1..], style, depth)
  }

  function LayoutProps(ps: seq<Prop>, style: Style, depth: nat): seq<Member> {
    if ps == [] then []
    else
      assert ps decreases to ps[0];
      var before := if style.gap == 0 then [] else [32];
      var after := if |ps| == 1 then Newline(style, depth) else [];
      var value := Elem(before, Layout(ps[0].value, style, depth + 1), after);
      [Member(Newline(style, depth + 1), EscapeText(ps[0].name), [], value)] + LayoutProps(ps[1..], style, depth)
  }

  function Document(v: JsValue, style: Style): Elem {
    Elem([], Layout(v, style, 0), [])
  }

  /** The big integers the serializer meets beyond the safe range, in order. */
  function Bigs(v: JsValue): seq<Big> {
    match v
    case VBigInt(n) => if n > MAX_SAFE then [n] else []
    case VArray(items) => BigsItems(items)
    case VObject(props) => BigsProps(props)
    case _ => []
  }

  function BigsItems(vs: seq<JsValue>): seq<Big> {
    if vs == [] then []
    else
      assert vs decreases to vs[0];
      Bigs(vs[0]) + BigsItems(vs[1..])
  }

  function BigsProps(ps: seq<Prop>): seq<Big> {
    if ps == [] then []
    else
      assert ps decreases to ps[0];
      Bigs(ps[0].value) + BigsProps(ps[1..])
  }

  // ---- putting the digits in place ------------------------------------------------------------

  function ReplaceBig(text: Text, n: Big): Text {
    ReplaceAll(text, Quoted(Holder(n)), SpellNumber(IntegerNumber(n)))
  }

  function ReplaceEach(text: Text, ns: seq<Big>): Text
    decreases ns
  {
    if ns == [] then text else ReplaceEach(ReplaceBig(text, ns[0]), ns[1..])
  }

  function Write(v: JsValue, style: Style): Text {
    ReplaceEach(DocumentText(Document(v, style)), Bigs(v))
  }

  method ToBigIntAwareJson(value: JsValue, spaces: int, rounded: int -> Number) returns (result: Text)
    ensures result == Write(value, Style(Gap(spaces), rounded))
  {
    var style := Style(Gap(spaces), rounded);
    var replacements := Bigs(value);
    result := DocumentText(Document(value, style));
    for i := 0 to |replacements|
      invariant ReplaceEach(result, replacements[i..]) == Write(value, style)
    {
      assert replacements[i..][1..] == replacements[i + 1..];
      result := ReplaceBig(result, replacements[i]);
    }
  }
}
