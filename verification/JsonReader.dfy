/** The whole reader: scanner, standard parser, reviver; and the exact condition under which
    its result is the text's value with every large integer kept exactly. */
module JsonReader {
  import opened Wrappers
  import opened JsonText
  import opened JsonParse
  import opened JsonScanner
  import opened JsonMap
  import opened JsonExact

  // ---- decimals -----------------------------------------------------------------------------

  /** The decimal digits of a natural number. */
  function Decimal(n: nat): (d: Integral)
    ensures DigitsValue(d) == n && (n != 0 ==> d[0] != 48)
  {
    if n < 10 then
      var d: Integral := [48 + n];
      assert d[..0] == [];
      d
    else
      var high := Decimal(n / 10);
      var d := high + [48 + n % 10];
      assert d[..|d| - 1] == high && d[0] == high[0];
      d
  }

  lemma {:induction false} DecimalUnique(d: seq<Digit>)
    requires d != [] && (d[0] == 48 ==> |d| == 1)
    ensures Decimal(DigitsValue(d)) == d
  {
    var high := d[..|d| - 1];
    var last := HexValue(d[|d| - 1]);
    assert d == high + [48 + last];
    if high == [] {
      assert DigitsValue(d) == last;
    } else {
      DecimalUnique(high);
      HighPositive(high);
      assert DigitsValue(d) / 10 == DigitsValue(high) && DigitsValue(d) % 10 == last;
    }
  }

  lemma {:induction false} HighPositive(d: seq<Digit>)
    requires d != [] && d[0] != 48
    ensures DigitsValue(d) > 0
  {
    if |d| > 1 {
      HighPositive(d[..|d| - 1]);
    } else {
      assert HexValue(d[0]) > 0;
    }
  }

  /** The text of an integer, as a number literal. */
  function IntegerNumber(n: int): (r: Number)
    ensures IsInteger(r) && IntegerValue(r) == n
  {
    if n < 0 then Number(true, Decimal(-n), None, None) else Number(false, Decimal(n), None, None)
  }

  /** Only zero has two spellings. */
  lemma {:induction false} IntegerNumberUnique(n: Number)
    requires IsInteger(n) && IntegerValue(n) != 0
    ensures IntegerNumber(IntegerValue(n)) == n
  {
    DecimalUnique(n.digits);
  }

  // ---- BigInt of a string ---------------------------------------------------------------------

  /** White space and line ends of ECMAScript. */
  predicate IsJsSpace(u: Unit) {
    9 <= u <= 13 || u == 32 || u == 160 || u == 0x1680 || 0x2000 <= u <= 0x200A
    || u == 0x2028 || u == 0x2029 || u == 0x202F || u == 0x205F || u == 0x3000 || u == 0xFEFF
  }

  function TrimStart(s: Text): (t: Text)
    ensures s != [] && !IsJsSpace(s[0]) ==> t == s
  {
    if s != [] && IsJsSpace(s[0]) then TrimStart(s[1..]) else s
  }

  function TrimEnd(s: Text): (t: Text)
    ensures s != [] && !IsJsSpace(s[|s| - 1]) ==> t == s
  {
    if s != [] && IsJsSpace(s[|s| - 1]) then TrimEnd(s[..|s| - 1]) else s
  }

  function RadixOf(letter: Unit): int {
    if letter == 120 || letter == 88 then 16
    else if letter == 111 || letter == 79 then 8
    else if letter == 98 || letter == 66 then 2
    else 0
  }

  function RadixValue(s: Text, radix: int): Option<int> {
    if s == [] then Some(0)
    else if !IsHexDigit(s[|s| - 1]) || HexValue(s[|s| - 1]) >= radix then None
    else
      var high :- RadixValue(s[..|s| - 1], radix);
      Some(radix * high + HexValue(s[|s| - 1]))
  }

  function SignedDecimal(negative: bool, s: Text): Option<int> {
    if s == [] || DigitRun(s) != s then None else Some(SignedValue(negative, DigitRun(s)))
  }

  /** BigInt(string); None stands for a SyntaxError. */
  function StringToBigInt(text: Text): Option<int> {
    var s := TrimEnd(TrimStart(text));
    if s == [] then Some(0)
    else if s[0] == 48 && |s| > 1 && RadixOf(s[1]) > 0 then
      if |s| == 2 then None else RadixValue(s[2..], RadixOf(s[1]))
    else if s[0] == MINUS || s[0] == PLUS then SignedDecimal(s[0] == MINUS, s[1..])
    else SignedDecimal(false, s)
  }

  // ---- the reader -----------------------------------------------------------------------------

  /** What the reviver makes of a parsed value; None when BigInt throws. */
  function Revive(v: JsValue): Option<JsValue> {
    match v
    case VString(text) =>
      if MARKER <= text then
        var n :- StringToBigInt(text[|MARKER|..]);
        Some(VBigInt(n))
      else Some(v)
    case VArray(items) =>
      var revived :- ReviveItems(items);
      Some(VArray(revived))
    case VObject(props) =>
      var revived :- ReviveProps(props);
      Some(VObject(revived))
    case _ => Some(v)
  }

  function ReviveItems(vs: seq<JsValue>): Option<seq<JsValue>> {
    if vs == [] then Some([])
    else
      assert vs decreases to vs[0];
      var first :- Revive(vs[0]);
      var more :- ReviveItems(vs[1..]);
      Some([first] + more)
  }

  function ReviveProps(ps: seq<Prop>): Option<seq<Prop>> {
    if ps == [] then Some([])
    else
      assert ps decreases to ps[0];
      var first :- Revive(ps[0].value);
      var more :- ReviveProps(ps[1..]);
      Some([Prop(ps[0].name, first)] + more)
  }

  /** The value of a text read with large integers; None for a syntax error. */
  function Read(text: Text): Option<JsValue> {
    var parsed :- Parse(Outside(text));
    Revive(parsed)
  }

  method ParseBigIntAwareJson(json: Text) returns (value: Option<JsValue>)
    ensures value == Read(json)
  {
    var processed := Scan(json);
    var parsed := Parse(processed);
    value := if parsed.Some? then Revive(parsed.value) else None;
  }

  // ---- what reading means -----------------------------------------------------------------------

  /** The exact value of a number: integers outside the safe range as big integers. */
  function Exactly(n: Number): JsValue {
    if Large(n) then VBigInt(IntegerValue(n)) else VNumber(n)
  }

  /** What the parser sees in place of a number. */
  function Marked(n: Number): JsValue {
    if Large(n) then VString(MARKER + IntegerText(n)) else VNumber(n)
  }

  /** A value with its big integers marked. */
  function Mark(v: JsValue): JsValue {
    match v
    case VBigInt(n) => VString(MARKER + IntegerText(IntegerNumber(n)))
    case VArray(items) => VArray(MarkItems(items))
    case VObject(props) => VObject(MarkProps(props))
    case _ => v
  }

  function MarkItems(vs: seq<JsValue>): seq<JsValue> {
    if vs == [] then []
    else
      assert vs decreases to vs[0];
      [Mark(vs[0])] + MarkItems(vs[1..])
  }

  function MarkProps(ps: seq<Prop>): seq<Prop> {
    if ps == [] then []
    else
      assert ps decreases to ps[0];
      [Prop(ps[0].name, Mark(ps[0].value))] + MarkProps(ps[1..])
  }

  /** No string value, at any depth, starts with the marker; names may. */
  predicate NoMarker(v: JsValue) {
    match v
    case VString(text) => !(MARKER <= text)
    case VArray(items) => NoMarkerItems(items)
    case VObject(props) => NoMarkerProps(props)
    case _ => true
  }

  predicate NoMarkerItems(vs: seq<JsValue>) {
    vs == [] || (assert vs decreases to vs[0]; NoMarker(vs[0]) && NoMarkerItems(vs[1..]))
  }

  predicate NoMarkerProps(ps: seq<Prop>) {
    ps == [] || (assert ps decreases to ps[0]; NoMarker(ps[0].value) && NoMarkerProps(ps[1..]))
  }

  lemma {:induction false} RunOfDigits(s: seq<Digit>)
    ensures DigitRun(s) == s
  {
    if s != [] {
      RunOfDigits(s[1..]);
    }
  }

  lemma {:induction false} NothingToTrim(s: Text)
    requires s != [] && !IsJsSpace(s[0]) && !IsJsSpace(s[|s| - 1])
    ensures TrimEnd(TrimStart(s)) == s
  {
  }

  lemma {:induction false} NegativeReadsBack(digits: Integral)
    ensures StringToBigInt([MINUS] + digits) == Some(-DigitsValue(digits))
  {
    var s := [MINUS] + digits;
    RunOfDigits(digits);
    assert s[|s| - 1] == digits[|digits| - 1];
    NothingToTrim(s);
    assert s[1..] == digits;
  }

  lemma {:induction false} PositiveReadsBack(digits: Integral)
    ensures StringToBigInt(digits) == Some(DigitsValue(digits))
  {
    RunOfDigits(digits);
    NothingToTrim(digits);
  }

  /** The text of a big integer reads back as that integer. */
  lemma {:induction false} BigIntReadsBack(n: int)
    ensures StringToBigInt(IntegerText(IntegerNumber(n))) == Some(n)
  {
    if n < 0 {
      NegativeReadsBack(Decimal(-n));
    } else {
      PositiveReadsBack(Decimal(n));
      assert IntegerText(IntegerNumber(n)) == Decimal(n);
    }
  }

  lemma {:induction false} MarkedRevives(n: int)
    ensures Revive(Mark(VBigInt(n))) == Some(VBigInt(n))
  {
    var text := IntegerText(IntegerNumber(n));
    assert (MARKER + text)[|MARKER|..] == text;
    BigIntReadsBack(n);
  }

  /** Reviving undoes marking exactly when no string value looks marked already. */
  lemma {:induction false} RevivesIff(v: JsValue)
    ensures Revive(Mark(v)) == Some(v) <==> NoMarker(v)
  {
    match v
    case VBigInt(n) => MarkedRevives(n);
    case VArray(items) => ItemsReviveIff(items);
    case VObject(props) => PropsReviveIff(props);
    case _ =>
  }

  lemma {:induction false} ItemsReviveIff(vs: seq<JsValue>)
    ensures ReviveItems(MarkItems(vs)) == Some(vs) <==> NoMarkerItems(vs)
  {
    if vs != [] {
      assert vs decreases to vs[0];
      RevivesIff(vs[0]);
      ItemsReviveIff(vs[1..]);
      var marked := MarkItems(vs);
      assert marked[0] == Mark(vs[0]) && marked[1..] == MarkItems(vs[1..]);
      ConsIff(vs, Revive(marked[0]), ReviveItems(marked[1..]));
    }
  }

  lemma {:induction false} ConsIff<T>(xs: seq<T>, first: Option<T>, more: Option<seq<T>>)
    requires xs != []
    ensures (first.Some? && more.Some? && [first.value] + more.value == xs)
       <==> (first == Some(xs[0]) && more == Some(xs[1..]))
  {
    if first.Some? && more.Some? {
      var ys := [first.value] + more.value;
      assert ys[0] == first.value && ys[1..] == more.value;
      assert [xs[0]] + xs[1..] == xs;
    }
  }

  lemma {:induction false} PropsReviveIff(ps: seq<Prop>)
    ensures ReviveProps(MarkProps(ps)) == Some(ps) <==> NoMarkerProps(ps)
  {
    if ps != [] {
      assert ps decreases to ps[0];
      RevivesIff(ps[0].value);
      PropsReviveIff(ps[1..]);
      var marked := MarkProps(ps);
      assert marked[0] == Prop(ps[0].name, Mark(ps[0].value)) && marked[1..] == MarkProps(ps[1..]);
      var first := Revive(marked[0].value);
      ConsIff(ps, if first.Some? then Some(Prop(ps[0].name, first.value)) else None, ReviveProps(marked[1..]));
    }
  }

  // ---- the scanned document has the marked value ----------------------------------------------

  lemma {:induction false} MarkedExactly(n: Number)
    ensures Mark(Exactly(n)) == Marked(n)
  {
    if Large(n) {
      IntegerNumberUnique(n);
    }
  }

  lemma {:induction false} RewrittenNumber(n: Number)
    ensures Value(MapTree(JNumber(n), RewriteToken), Plainly) == Marked(n)
  {
    if Large(n) {
      SpellPlainChars(MARKER + IntegerText(n));
    }
  }

  lemma {:induction false} MarkPut(ps: seq<Prop>, name: Text, v: JsValue)
    ensures MarkProps(PutProp(ps, name, v)) == PutProp(MarkProps(ps), name, Mark(v))
  {
    if ps == [] {
      assert MarkProps([Prop(name, v)]) == [Prop(name, Mark(v))] + MarkProps([]);
    } else {
      assert ps decreases to ps[0];
      var marked := MarkProps(ps);
      assert marked[0] == Prop(ps[0].name, Mark(ps[0].value)) && marked[1..] == MarkProps(ps[1..]);
      if ps[0].name == name {
        MarkCons(Prop(name, v), ps[1..]);
      } else {
        MarkPut(ps[1..], name, v);
        MarkCons(ps[0], PutProp(ps[1..], name, v));
      }
    }
  }

  lemma {:induction false} MarkCons(p: Prop, ps: seq<Prop>)
    ensures MarkProps([p] + ps) == [Prop(p.name, Mark(p.value))] + MarkProps(ps)
  {
    assert ([p] + ps)[0] == p && ([p] + ps)[1..] == ps;
  }

  lemma {:induction false} RewrittenValue(j: Json)
    ensures Value(MapTree(j, RewriteToken), Plainly) == Mark(Value(j, Exactly))
  {
    match j
    case JNumber(n) =>
      MarkedExactly(n);
      RewrittenNumber(n);
    case JArray(_, es) => RewrittenElems(es);
    case JObject(_, ms) => RewrittenMembers(ms, []);
    case _ =>
  }

  lemma {:induction false} RewrittenElems(es: seq<Elem>)
    ensures ElemsValue(MapElems(es, RewriteToken), Plainly) == MarkItems(ElemsValue(es, Exactly))
  {
    if es != [] {
      assert es decreases to es[0];
      RewrittenValue(es[0].value);
      RewrittenElems(es[1..]);
      assert MapElems(es, RewriteToken)[1..] == MapElems(es[1..], RewriteToken);
      var vs := ElemsValue(es, Exactly);
      assert vs[0] == Value(es[0].value, Exactly) && vs[1..] == ElemsValue(es[1..], Exactly);
    }
  }

  /** The first member of a list, seen in its value. */
  lemma {:induction false} MembersHead(ms: seq<Member>, sofar: seq<Prop>, number: Number -> JsValue)
    requires ms != []
    ensures MembersValue(ms, sofar, number)
         == MembersValue(ms[1..], PutProp(sofar, CharsValue(ms[0].key), Value(ms[0].elem.value, number)), number)
  {
  }

  /** Rewriting keeps a member's name and rewrites its value. */
  lemma {:induction false} RewrittenHead(ms: seq<Member>)
    requires ms != []
    ensures var mapped := MapMembers(ms, RewriteToken);
      && mapped != [] && mapped[1..] == MapMembers(ms[1..], RewriteToken)
      && mapped[0].key == ms[0].key && mapped[0].elem.value == MapTree(ms[0].elem.value, RewriteToken)
  {
    var m := ms[0];
    var mapped := MapMembers(ms, RewriteToken);
    assert RewriteToken(TString(m.key)) == TString(m.key);
    assert mapped[0] == MapMember(m, RewriteToken) && mapped[1..] == MapMembers(ms[1..], RewriteToken);
    assert mapped[0].elem == MapElem(m.elem, RewriteToken);
  }

  lemma {:induction false} RewrittenMembers(ms: seq<Member>, sofar: seq<Prop>)
    ensures MembersValue(MapMembers(ms, RewriteToken), MarkProps(sofar), Plainly)
         == MarkProps(MembersValue(ms, sofar, Exactly))
  {
    if ms != [] {
      assert ms decreases to ms[0];
      var m := ms[0];
      var name, v := CharsValue(m.key), Value(m.elem.value, Exactly);
      RewrittenHead(ms);
      MembersHead(MapMembers(ms, RewriteToken), MarkProps(sofar), Plainly);
      MembersHead(ms, sofar, Exactly);
      RewrittenValue(m.elem.value);
      MarkPut(sofar, name, v);
      RewrittenMembers(ms[1..], PutProp(sofar, name, v));
    }
  }

  /** Reading the text of any document yields its value with every integer outside the safe
      range exact, if and only if no string value of it starts with the marker. */
  lemma {:induction false} ReadsExactly(doc: Elem)
    ensures Read(DocumentText(doc)) == Some(Value(doc.value, Exactly)) <==> NoMarker(Value(doc.value, Exactly))
  {
    ScannedDocument(doc);
    ParseDocument(MapElem(doc, RewriteToken));
    RewrittenValue(doc.value);
    RevivesIff(Value(doc.value, Exactly));
  }

  /** The document "__BIGINT__": a string that is read as a big integer. */
  const MARKER_STRING: Elem := Elem([], JString(PlainChars(MARKER)), [])

  /** It is read as what the reviver makes of its value. */
  lemma {:induction false} StringDocument(doc: Elem, cs: seq<Char>)
    requires doc == Elem([], JString(cs), [])
    ensures Read(DocumentText(doc)) == Revive(VString(CharsValue(cs)))
  {
    ScannedDocument(doc);
    assert MapElem(doc, RewriteToken).value == JString(cs);
    ParseDocument(MapElem(doc, RewriteToken));
  }

  lemma {:induction false} MarkerStringMisread()
    ensures Value(MARKER_STRING.value, Exactly) == VString(MARKER)
    ensures Read(DocumentText(MARKER_STRING)) == Some(VBigInt(0))
  {
    SpellPlainChars(MARKER);
    StringDocument(MARKER_STRING, PlainChars(MARKER));
    assert MARKER[|MARKER|..] == [];
  }

  // ---- texts that are not JSON ------------------------------------------------------------------

  /** The value of a whole sequence of tokens. */
  function TokensValue(ts: seq<Token>): Option<JsValue> {
    var value :- ParseValue(Significant(ts));
    if value.rest == [] then Some(value.item) else None
  }

  lemma {:induction false} ParseTokens(ts: seq<Token>)
    requires Separated(ts)
    ensures Parse(Spell(ts)) == TokensValue(ts)
  {
    TokensReadBack(ts);
  }

  lemma {:induction false} RewriteSeparated(ts: seq<Token>)
    requires Separated(ts)
    ensures Separated(MapTokens(ts, RewriteToken))
  {
    if ts != [] {
      RewriteSeparated(ts[1..]);
      assert MapTokens(ts, RewriteToken)[1..] == MapTokens(ts[1..], RewriteToken);
      if ts[1..] != [] {
        assert MapTokens(ts[1..], RewriteToken)[0] == RewriteToken(ts[1..][0]);
      }
    }
  }

  /** Of tokens in any order, exactly those sequences are accepted that are JSON once each large
      integer is a string, as long as the marked strings revive. */
  lemma {:induction false} ReadTokens(ts: seq<Token>)
    requires Separated(ts)
    ensures var value := TokensValue(MapTokens(ts, RewriteToken));
      Read(Spell(ts)) == if value.None? then None else Revive(value.value)
  {
    OutsideTokens(ts);
    RewriteSeparated(ts);
    ParseTokens(MapTokens(ts, RewriteToken));
  }

  /** {n:1} */
  function NumberNamed(n: Number, one: Number): seq<Token> {
    [TMark(LEFT_BRACE), TNumber(n), TMark(COLON), TNumber(one), TMark(RIGHT_BRACE)]
  }

  lemma {:induction false} NumberNamedSeparated(n: Number, one: Number)
    ensures Separated(NumberNamed(n, one))
  {
    var ts := NumberNamed(n, one);
    assert ts[4..][1..] == [] && Separated(ts[4..]);
    assert ts[3..][1..] == ts[4..] && Separated(ts[3..]);
    assert ts[2..][1..] == ts[3..] && Separated(ts[2..]);
    assert ts[1..][1..] == ts[2..] && Separated(ts[1..]);
  }

  lemma {:induction false} NumberNamedSignificant(n: Number, one: Number)
    ensures Significant(NumberNamed(n, one)) == NumberNamed(n, one)
  {
    var ts := NumberNamed(n, one);
    assert ts[4..][1..] == [] && Significant(ts[4..]) == ts[4..];
    assert ts[3..][1..] == ts[4..] && Significant(ts[3..]) == ts[3..];
    assert ts[2..][1..] == ts[3..] && Significant(ts[2..]) == ts[2..];
    assert ts[1..][1..] == ts[2..] && Significant(ts[1..]) == ts[1..];
  }

  /** The object that the reader makes of it. */
  function MarkedName(n: Number, one: Number): Elem {
    Elem([], JObject([], [Member([], MarkedChars(n), [], Elem([], JNumber(one), []))]), [])
  }

  lemma {:induction false} MapAt(ts: seq<Token>, f: Token -> Token, i: nat)
    requires i < |ts|
    ensures MapTokens(ts, f)[i] == f(ts[i])
  {
    if i > 0 {
      MapAt(ts[1..], f, i - 1);
    }
  }

  /** {"__BIGINT__n":1} */
  function StringNamed(name: seq<Char>, one: Number): seq<Token> {
    [TMark(LEFT_BRACE), TString(name), TMark(COLON), TNumber(one), TMark(RIGHT_BRACE)]
  }

  lemma {:induction false} RewrittenName(n: Number, one: Number)
    requires Large(n) && !Large(one)
    ensures MapTokens(NumberNamed(n, one), RewriteToken) == StringNamed(MarkedChars(n), one)
  {
    var ts := NumberNamed(n, one);
    forall i | 0 <= i < 5 ensures MapTokens(ts, RewriteToken)[i] == StringNamed(MarkedChars(n), one)[i] {
      MapAt(ts, RewriteToken, i);
    }
  }

  lemma {:induction false} MarkedNameTokens(n: Number, one: Number)
    ensures ElemTokens(MarkedName(n, one)) == StringNamed(MarkedChars(n), one)
  {
    var doc := MarkedName(n, one);
    var value := Elem([], JNumber(one), []);
    var m := Member([], MarkedChars(n), [], value);
    assert ElemTokens(value) == [TNumber(one)];
    assert MemberTokens(m) == [TString(m.key), TMark(COLON), TNumber(one)];
    assert MembersTokens([m]) == MemberTokens(m) + [];
    assert Tokens(doc.value) == StringNamed(MarkedChars(n), one);
  }

  lemma {:induction false} TokensOfDocument(doc: Elem)
    ensures TokensValue(ElemTokens(doc)) == Some(Value(doc.value, Plainly))
  {
    DocumentSeparated(doc);
    ParseTokens(ElemTokens(doc));
    ParseDocument(doc);
  }

  lemma {:induction false} MarkedNameValue(n: Number, one: Number)
    ensures Value(MarkedName(n, one).value, Plainly) == VObject([Prop(MARKER + IntegerText(n), VNumber(one))])
  {
    var ms := [Member([], MarkedChars(n), [], Elem([], JNumber(one), []))];
    assert ms[1..] == [];
    MembersHead(ms, [], Plainly);
    SpellPlainChars(MARKER + IntegerText(n));
  }

  lemma {:induction false} NumberNameRefused(n: Number, one: Number)
    ensures Parse(Spell(NumberNamed(n, one))).None?
  {
    var ts := NumberNamed(n, one);
    NumberNamedSeparated(n, one);
    NumberNamedSignificant(n, one);
    ParseTokens(ts);
    assert ts[1..][0] == TNumber(n);
    assert ParseMembers(ts[1..], []).None?;
  }

  /** A large integer in the place of a name is no JSON, but is read as a name:
      {12345678901234567890:1} */
  lemma {:induction false} LargeNameAccepted(n: Number, one: Number)
    requires Large(n) && !Large(one)
    ensures Parse(Spell(NumberNamed(n, one))).None?
    ensures Read(Spell(NumberNamed(n, one))) == Some(VObject([Prop(MARKER + IntegerText(n), VNumber(one))]))
  {
    NumberNameRefused(n, one);
    NumberNamedSeparated(n, one);
    ReadTokens(NumberNamed(n, one));
    RewrittenName(n, one);
    MarkedNameTokens(n, one);
    TokensOfDocument(MarkedName(n, one));
    MarkedNameValue(n, one);
    RevivesAlone(Prop(MARKER + IntegerText(n), VNumber(one)));
  }

  lemma {:induction false} RevivesAlone(p: Prop)
    requires p.value.VNumber?
    ensures Revive(VObject([p])) == Some(VObject([p]))
  {
    assert [p][1..] == [] && [p] + [] == [p];
    assert ReviveProps([p]) == Some([p] + []);
  }

  // ---- leading zeros ----------------------------------------------------------------------------

  /** [ds] */
  function InBrackets(s: Text): Text {
    [LEFT_BRACKET] + (s + [RIGHT_BRACKET])
  }

  lemma {:induction false} RunBefore(ds: seq<Digit>, rest: Text)
    requires rest == [] || !IsDigit(rest[0])
    ensures DigitRun(ds + rest) == ds
  {
    DigitsReadBack(ds, rest);
  }

  lemma {:induction false} ZerosRefused(ds: Digits)
    requires ds[0] == 48 && |ds| > 1
    ensures Parse(InBrackets(ds)).None?
  {
    var rest := ds + [RIGHT_BRACKET];
    RunBefore(ds, [RIGHT_BRACKET]);
    assert rest[0] == ds[0];
    assert LexMagnitude(rest, false).None?;
    assert LexToken(rest).None?;
    assert InBrackets(ds)[1..] == rest;
    assert LexToken(InBrackets(ds)) == Some(Lexed(TMark(LEFT_BRACKET), rest));
    assert rest != [] && Lex(rest).None?;
    assert Lex(InBrackets(ds)).None?;
  }

  lemma {:induction false} ZerosPlaced(ds: Digits)
    requires |ds| >= 15 && !Safe(DigitsValue(ds))
    ensures Placed(false, ds + [RIGHT_BRACKET]) == [QUOTE] + (MARKER + ds + [QUOTE])
    ensures NumberLength(ds + [RIGHT_BRACKET]) == |ds|
  {
    var s := ds + [RIGHT_BRACKET];
    RunBefore(ds, [RIGHT_BRACKET]);
    Parts(ds, [RIGHT_BRACKET]);
    assert FractionLength([RIGHT_BRACKET]) == 0 && ExponentLength([RIGHT_BRACKET]) == 0;
    assert s[|ds| + 0..] == [RIGHT_BRACKET];
  }

  /** The array that the reader makes of it. */
  function ZerosArray(ds: seq<Unescaped>): Elem {
    Elem([], JArray([], [Elem([], JString(PlainChars(MARKER + ds)), [])]), [])
  }

  lemma {:induction false} ZerosTokens(ds: seq<Unescaped>)
    ensures ElemTokens(ZerosArray(ds))
         == [TMark(LEFT_BRACKET), TString(PlainChars(MARKER + ds)), TMark(RIGHT_BRACKET)]
  {
    var item := Elem([], JString(PlainChars(MARKER + ds)), []);
    assert ElemTokens(item) == [TString(PlainChars(MARKER + ds))];
    assert ElemsTokens([item]) == ElemTokens(item) + [];
    assert Tokens(ZerosArray(ds).value)
        == [TMark(LEFT_BRACKET), TString(PlainChars(MARKER + ds)), TMark(RIGHT_BRACKET)];
  }

  lemma {:induction false} SpellThree(a: Token, b: Token, c: Token)
    ensures Spell([a, b, c]) == SpellToken(a) + (SpellToken(b) + SpellToken(c))
  {
    assert [a, b, c][1..] == [b, c] && [b, c][1..] == [c] && [c][1..] == [];
    assert Spell([c]) == SpellToken(c) + [];
  }

  lemma {:induction false} ZerosOutside(ds: Digits)
    requires |ds| >= 15 && !Safe(DigitsValue(ds))
    ensures Outside(ds + [RIGHT_BRACKET]) == [QUOTE] + (MARKER + ds + [QUOTE]) + [RIGHT_BRACKET]
  {
    var rest := ds + [RIGHT_BRACKET];
    ZerosPlaced(ds);
    assert rest[0] == ds[0] && IsDigit(rest[0]);
    OutsideNumber(false, rest);
    Parts(ds, [RIGHT_BRACKET]);
    BracketOutside();
  }

  lemma {:induction false} BracketOutside()
    ensures Outside([RIGHT_BRACKET]) == [RIGHT_BRACKET]
  {
    OutsideCopies([RIGHT_BRACKET]);
    assert [RIGHT_BRACKET][1..] == [] && [RIGHT_BRACKET] + [] == [RIGHT_BRACKET];
  }

  lemma {:induction false} ZerosSpelt(ds: seq<Unescaped>)
    ensures DocumentText(ZerosArray(ds)) == [LEFT_BRACKET] + (([QUOTE] + (MARKER + ds + [QUOTE])) + [RIGHT_BRACKET])
  {
    SpellPlainChars(MARKER + ds);
    ZerosTokens(ds);
    SpellThree(TMark(LEFT_BRACKET), TString(PlainChars(MARKER + ds)), TMark(RIGHT_BRACKET));
  }

  lemma {:induction false} ZerosScanned(ds: Digits)
    requires |ds| >= 15 && !Safe(DigitsValue(ds))
    ensures Outside(InBrackets(ds)) == DocumentText(ZerosArray(ds))
  {
    Parts([LEFT_BRACKET], ds + [RIGHT_BRACKET]);
    OutsideCopies(InBrackets(ds));
    ZerosOutside(ds);
    ZerosSpelt(ds);
  }

  lemma {:induction false} ZerosParsed(ds: seq<Unescaped>)
    ensures Value(ZerosArray(ds).value, Plainly) == VArray([VString(MARKER + ds)])
  {
    var es := [Elem([], JString(PlainChars(MARKER + ds)), [])];
    SpellPlainChars(MARKER + ds);
    assert es[1..] == [];
    assert ElemsValue(es, Plainly) == [VString(MARKER + ds)] + [];
  }

  lemma {:induction false} ZerosRevive(ds: Digits)
    requires |ds| > 1
    ensures Revive(VString(MARKER + ds)) == Some(VBigInt(DigitsValue(ds)))
  {
    assert (MARKER + ds)[|MARKER|..] == ds;
    RunOfDigits(ds);
    NothingToTrim(ds);
  }

  lemma {:induction false} ZerosValue(ds: Digits)
    requires |ds| > 1
    ensures Revive(Value(ZerosArray(ds).value, Plainly)) == Some(VArray([VBigInt(DigitsValue(ds))]))
  {
    var v, revived := VString(MARKER + ds), VBigInt(DigitsValue(ds));
    ZerosParsed(ds);
    ZerosRevive(ds);
    assert [v][1..] == [] && [revived] + [] == [revived];
    assert ReviveItems([v]) == Some([revived] + []);
  }

  /** Leading zeros are no JSON, but vanish where the integer is large:
      [00009007199254740993] */
  lemma {:induction false} LeadingZerosAccepted(ds: Digits)
    requires ds[0] == 48 && |ds| >= 15 && !Safe(DigitsValue(ds))
    ensures Parse(InBrackets(ds)).None? && Read(InBrackets(ds)) == Some(VArray([VBigInt(DigitsValue(ds))]))
  {
    ZerosRefused(ds);
    ZerosScanned(ds);
    ParseDocument(ZerosArray(ds));
    ZerosValue(ds);
  }
}
