/** What is written reads back, exactly if the placeholders and the marker do not meet the
    value's own strings. */
module JsonRoundTrip {
  import opened Wrappers
  import opened JsonText
  import opened JsonParse
  import opened JsonMap
  import opened JsonScanner
  import opened JsonExact
  import opened JsonReader
  import opened JsonReplace
  import opened JsonWriter
  import opened JsonWreck

  // ---- the values that come back --------------------------------------------------------------

  function Names(ps: seq<Prop>): (r: seq<Text>)
    ensures |r| == |ps|
  {
    if ps == [] then [] else [ps[0].name] + Names(ps[1..])
  }

  predicate Distinct(names: seq<Text>) {
    forall i, j | 0 <= i < j < |names| :: names[i] != names[j]
  }

  /** Objects have each name once, as all objects do. */
  predicate WellNamed(v: JsValue) {
    match v
    case VArray(items) => WellNamedItems(items)
    case VObject(props) => Distinct(Names(props)) && WellNamedProps(props)
    case _ => true
  }

  predicate WellNamedItems(vs: seq<JsValue>) {
    vs == [] || (assert vs decreases to vs[0]; WellNamed(vs[0]) && WellNamedItems(vs[1..]))
  }

  predicate WellNamedProps(ps: seq<Prop>) {
    ps == [] || (assert ps decreases to ps[0]; WellNamed(ps[0].value) && WellNamedProps(ps[1..]))
  }

  /** Numbers do not print as integers outside the safe range, and big integers below it are
      not rounded. */
  predicate Printable(v: JsValue, style: Style) {
    match v
    case VNumber(n) => !Large(n)
    case VBigInt(n) => n >= -MAX_SAFE || style.rounded(n) == IntegerNumber(n)
    case VArray(items) => PrintableItems(items, style)
    case VObject(props) => PrintableProps(props, style)
    case _ => true
  }

  predicate PrintableItems(vs: seq<JsValue>, style: Style) {
    vs == [] || (assert vs decreases to vs[0]; Printable(vs[0], style) && PrintableItems(vs[1..], style))
  }

  predicate PrintableProps(ps: seq<Prop>, style: Style) {
    ps == [] || (assert ps decreases to ps[0]; Printable(ps[0].value, style) && PrintableProps(ps[1..], style))
  }

  /** The value with safe big integers as numbers and negative zero as zero. */
  function Normal(v: JsValue): JsValue {
    match v
    case VNumber(n) => VNumber(Printed(n))
    case VBigInt(n) => if Safe(n) then VNumber(IntegerNumber(n)) else v
    case VArray(items) => VArray(NormalItems(items))
    case VObject(props) => VObject(NormalProps(props))
    case _ => v
  }

  function NormalItems(vs: seq<JsValue>): seq<JsValue> {
    if vs == [] then []
    else
      assert vs decreases to vs[0];
      [Normal(vs[0])] + NormalItems(vs[1..])
  }

  function NormalProps(ps: seq<Prop>): seq<Prop> {
    if ps == [] then []
    else
      assert ps decreases to ps[0];
      [Prop(ps[0].name, Normal(ps[0].value))] + NormalProps(ps[1..])
  }

  // ---- strings that no placeholder meets ------------------------------------------------------

  predicate EndsWith(s: Text, suffix: Text) {
    |suffix| <= |s| && s[|s| - |suffix|..] == suffix
  }

  predicate NoHolder(s: Text, ns: seq<Big>) {
    ns == [] || (s != Holder(ns[0]) && NoHolder(s, ns[1..]))
  }

  /** The string is no placeholder of the big integers. */
  function ApartFrom(ns: seq<Big>): Text -> bool {
    (s: Text) => NoHolder(s, ns)
  }

  /** The string does not end in a quotation mark and the placeholder. */
  function Untailed(n: Big): Text -> bool {
    (s: Text) => !EndsWith(s, [QUOTE] + Holder(n))
  }

  /** The property holds of every string and every name in the value. */
  predicate AllStrings(v: JsValue, p: Text -> bool) {
    match v
    case VString(text) => p(text)
    case VArray(items) => AllStringsItems(items, p)
    case VObject(props) => AllStringsProps(props, p)
    case _ => true
  }

  predicate AllStringsItems(vs: seq<JsValue>, p: Text -> bool) {
    vs == [] || (assert vs decreases to vs[0]; AllStrings(vs[0], p) && AllStringsItems(vs[1..], p))
  }

  predicate AllStringsProps(ps: seq<Prop>, p: Text -> bool) {
    ps == [] ||
    (assert ps decreases to ps[0]; p(ps[0].name) && AllStrings(ps[0].value, p) && AllStringsProps(ps[1..], p))
  }

  predicate AllUntailed(v: JsValue, ns: seq<Big>) {
    ns == [] || (AllStrings(v, Untailed(ns[0])) && AllUntailed(v, ns[1..]))
  }

  /** No string and no name is the placeholder of one of the value's own big integers, or ends
      in a quotation mark and one. */
  predicate Collisionless(v: JsValue) {
    AllStrings(v, ApartFrom(Bigs(v))) && AllUntailed(v, Bigs(v))
  }

  // ---- escaping -------------------------------------------------------------------------------

  lemma {:induction false} UnicodeEscapeValue(u: Unit)
    ensures CharValue(UnicodeEscape(u)) == u
  {
  }

  lemma {:induction false} EscapeReadsBack(previous: Option<Unit>, s: Text)
    ensures CharsValue(EscapeAfter(previous, s)) == s
    decreases s
  {
    if s != [] {
      UnicodeEscapeValue(s[0]);
      EscapeReadsBack(Some(s[0]), s[1..]);
      var cs := EscapeAfter(previous, s);
      assert cs[1..] == EscapeAfter(Some(s[0]), s[1..]);
    }
  }

  /** Only the string itself is spelt as plain text. */
  lemma {:induction false} SpeltPlainly(previous: Option<Unit>, s: Text, h: seq<Unescaped>)
    requires SpellChars(EscapeAfter(previous, s)) == h
    ensures s == h
    decreases s
  {
    if s != [] {
      var cs := EscapeAfter(previous, s);
      assert cs[1..] == EscapeAfter(Some(s[0]), s[1..]);
      var spelt := SpellChar(cs[0]);
      assert h == spelt + SpellChars(cs[1..]);
      assert h[0] == spelt[0];
      assert spelt == [s[0]];
      assert h[1..] == SpellChars(cs[1..]);
      SpeltPlainly(Some(s[0]), s[1..], h[1..]);
    }
  }

  lemma {:induction false} EndsQuotedOnlyIf(previous: Option<Unit>, s: Text, h: Placeholder)
    requires EndsQuoted(EscapeAfter(previous, s), h)
    ensures EndsWith(s, [QUOTE] + h)
    decreases s
  {
    var cs := EscapeAfter(previous, s);
    assert s != [];
    assert cs[1..] == EscapeAfter(Some(s[0]), s[1..]);
    if cs[0] == Escape(QUOTE) && SpellChars(cs[1..]) == h {
      SpeltPlainly(Some(s[0]), s[1..], h);
      assert s == [QUOTE] + h;
    } else {
      EndsQuotedOnlyIf(Some(s[0]), s[1..], h);
      assert s[|s| - |h| - 1..] == s[1..][|s| - 1 - |h| - 1..];
    }
  }

  lemma {:induction false} EndsQuotedIf(previous: Option<Unit>, s: Text, h: Placeholder)
    requires EndsWith(s, [QUOTE] + h) && Tidy(h)
    ensures EndsQuoted(EscapeAfter(previous, s), h)
    decreases s
  {
    var cs := EscapeAfter(previous, s);
    assert cs[1..] == EscapeAfter(Some(s[0]), s[1..]);
    if |s| == |h| + 1 {
      assert s == [QUOTE] + h;
      assert s[1..] == h;
      TidySpelling(Some(s[0]), h);
    } else {
      assert s[1..][|s| - 1 - |h| - 1..] == s[|s| - |h| - 1..];
      EndsQuotedIf(Some(s[0]), s[1..], h);
    }
  }

  predicate Tidy(s: Text) {
    forall i | 0 <= i < |s| :: IsHexDigit(s[i]) || s[i] == 120
  }

  lemma {:induction false} TidySpelling(previous: Option<Unit>, s: Text)
    requires Tidy(s)
    ensures SpellChars(EscapeAfter(previous, s)) == s
    decreases s
  {
    if s != [] {
      var cs := EscapeAfter(previous, s);
      assert IsHexDigit(s[0]) || s[0] == 120;
      assert cs[0] == Plain(s[0]) && cs[1..] == EscapeAfter(Some(s[0]), s[1..]);
      TidySpelling(Some(s[0]), s[1..]);
    }
  }

  lemma {:induction false} HolderTidy(n: Big)
    ensures Tidy(Holder(n)) && SpellChars(EscapeText(Holder(n))) == Holder(n)
  {
    var s := Holder(n);
    forall i | 0 <= i < |s| ensures IsHexDigit(s[i]) || s[i] == 120 {
      if i >= 2 {
        assert s[i] == HexText(n)[i - 2];
      }
    }
    TidySpelling(None, s);
  }

  lemma {:induction false} HolderNotQuoted(m: Big, n: Big)
    ensures !EndsQuoted(EscapeText(Holder(m)), Holder(n))
  {
    HolderTidy(m);
    if EndsQuoted(EscapeText(Holder(m)), Holder(n)) {
      EndsQuotedOnlyIf(None, Holder(m), Holder(n));
      QuoteInside(Holder(m), Holder(n));
    }
  }

  lemma {:induction false} QuoteInside(s: Text, h: Text)
    requires EndsWith(s, [QUOTE] + h)
    ensures s[|s| - |h| - 1] == QUOTE
  {
    var suffix := [QUOTE] + h;
    assert s[|s| - |suffix|..][0] == suffix[0];
  }

  // ---- all replacements at once ---------------------------------------------------------------

  function Settle(t: Token, ns: seq<Big>): Token
    decreases ns
  {
    if ns == [] then t else Settle(ReplaceToken(t, Holder(ns[0]), IntegerNumber(ns[0])), ns[1..])
  }

  function Settler(ns: seq<Big>): Token -> Token {
    (t: Token) => Settle(t, ns)
  }

  lemma {:induction false} SettleNonString(t: Token, ns: seq<Big>)
    requires !t.TString?
    ensures Settle(t, ns) == t
  {
    if ns != [] {
      SettleNonString(t, ns[1..]);
    }
  }

  lemma {:induction false} SettleNoMark(t: Token, ns: seq<Big>)
    requires !t.TMark?
    ensures !Settle(t, ns).TMark?
    decreases ns
  {
    if ns != [] {
      SettleNoMark(ReplaceToken(t, Holder(ns[0]), IntegerNumber(ns[0])), ns[1..]);
    }
  }

  lemma {:induction false} SettleStep(ts: seq<Token>, ns: seq<Big>)
    requires ns != []
    ensures MapTokens(ReplacedTokens(ts, ns[0]), Settler(ns[1..])) == MapTokens(ts, Settler(ns))
  {
    if ts != [] {
      SettleStep(ts[1..], ns);
      assert ReplacedTokens(ts, ns[0])[1..] == ReplacedTokens(ts[1..], ns[0]);
    }
  }

  lemma {:induction false} SettleNothing(ts: seq<Token>)
    ensures MapTokens(ts, Settler([])) == ts
  {
    if ts != [] {
      SettleNothing(ts[1..]);
    }
  }

  lemma {:induction false} ReplaceFirst(ts: seq<Token>, ns: seq<Big>)
    requires ns != [] && Separated(ts) && UntangledAll(ts, ns)
    ensures ReplaceEach(Spell(ts), ns) == ReplaceEach(Spell(ReplacedTokens(ts, ns[0])), ns[1..])
    ensures Separated(ReplacedTokens(ts, ns[0])) && UntangledAll(ReplacedTokens(ts, ns[0]), ns[1..])
  {
    ReplaceTokens(ts, Holder(ns[0]), IntegerNumber(ns[0]));
    ReplacedSeparated(ts, ns[0]);
    ReplacedUntangledAll(ts, ns[0], ns[1..]);
  }

  /** The replacements one after the other settle each token on its own. */
  lemma {:induction false} ReplaceEachToken(ts: seq<Token>, ns: seq<Big>)
    requires Separated(ts) && UntangledAll(ts, ns)
    ensures ReplaceEach(Spell(ts), ns) == Spell(MapTokens(ts, Settler(ns)))
    decreases ns
  {
    if ns == [] {
      SettleNothing(ts);
    } else {
      ReplaceFirst(ts, ns);
      ReplaceEachToken(ReplacedTokens(ts, ns[0]), ns[1..]);
      SettleStep(ts, ns);
    }
  }

  lemma {:induction false} SettleApart(s: Text, ns: seq<Big>)
    requires NoHolder(s, ns)
    ensures Settle(TString(EscapeText(s)), ns) == TString(EscapeText(s))
  {
    if ns != [] {
      if SpellChars(EscapeText(s)) == Holder(ns[0]) {
        SpeltPlainly(None, s, Holder(ns[0]));
      }
      SettleApart(s, ns[1..]);
    }
  }

  lemma {:induction false} SettleHolder(n: Big, ns: seq<Big>)
    requires n in ns
    ensures Settle(TString(EscapeText(Holder(n))), ns) == TNumber(IntegerNumber(n))
  {
    HolderTidy(n);
    if ns[0] == n {
      SettleNonString(TNumber(IntegerNumber(n)), ns[1..]);
    } else {
      if Holder(ns[0]) == Holder(n) {
        HolderInjective(ns[0], n);
      }
      SettleHolder(n, ns[1..]);
    }
  }

  /** A string that is a placeholder is the placeholder of one of the big integers. */
  lemma {:induction false} HolderOf(s: Text, ns: seq<Big>) returns (n: Big)
    requires !NoHolder(s, ns)
    ensures n in ns && s == Holder(n)
  {
    if s == Holder(ns[0]) {
      n := ns[0];
    } else {
      n := HolderOf(s, ns[1..]);
    }
  }

  // ---- tangles in a layout ----------------------------------------------------------------------

  lemma {:induction false} TextUntangled(s: Text, n: Big)
    ensures EndsQuoted(EscapeText(s), Holder(n)) <==> !Untailed(n)(s)
  {
    HolderTidy(n);
    if EndsQuoted(EscapeText(s), Holder(n)) {
      EndsQuotedOnlyIf(None, s, Holder(n));
    } else if EndsWith(s, [QUOTE] + Holder(n)) {
      EndsQuotedIf(None, s, Holder(n));
    }
  }

  lemma {:induction false} LayoutUntangled(v: JsValue, style: Style, depth: nat, n: Big)
    ensures TreeUntangled(Layout(v, style, depth), Holder(n)) <==> AllStrings(v, Untailed(n))
    decreases v
  {
    match v
    case VBigInt(m) =>
      if m > MAX_SAFE {
        HolderNotQuoted(m, n);
      }
    case VString(text) => TextUntangled(text, n);
    case VArray(items) => LayoutItemsUntangled(items, style, depth, n);
    case VObject(props) => LayoutPropsUntangled(props, style, depth, n);
    case _ =>
  }

  lemma {:induction false} LayoutItemsUntangled(vs: seq<JsValue>, style: Style, depth: nat, n: Big)
    ensures ElemsUntangled(LayoutItems(vs, style, depth), Holder(n)) <==> AllStringsItems(vs, Untailed(n))
    decreases vs
  {
    if vs != [] {
      assert vs decreases to vs[0];
      LayoutUntangled(vs[0], style, depth + 1, n);
      LayoutItemsUntangled(vs[1..], style, depth, n);
      assert LayoutItems(vs, style, depth)[1..] == LayoutItems(vs[1..], style, depth);
    }
  }

  lemma {:induction false} LayoutPropsUntangled(ps: seq<Prop>, style: Style, depth: nat, n: Big)
    ensures MembersUntangled(LayoutProps(ps, style, depth), Holder(n)) <==> AllStringsProps(ps, Untailed(n))
    decreases ps
  {
    if ps != [] {
      assert ps decreases to ps[0];
      TextUntangled(ps[0].name, n);
      LayoutUntangled(ps[0].value, style, depth + 1, n);
      LayoutPropsUntangled(ps[1..], style, depth, n);
      assert LayoutProps(ps, style, depth)[1..] == LayoutProps(ps[1..], style, depth);
    }
  }

  lemma {:induction false} DocumentUntangled(v: JsValue, style: Style, ns: seq<Big>)
    ensures UntangledAll(ElemTokens(Document(v, style)), ns) <==> AllUntailed(v, ns)
  {
    if ns != [] {
      LayoutUntangled(v, style, 0, ns[0]);
      ElemUntangled(Document(v, style), Holder(ns[0]));
      DocumentUntangled(v, style, ns[1..]);
    }
  }

  // ---- what is read -----------------------------------------------------------------------------

  /** What becomes of a printed token: its digits put in place, then marked by the scanner. */
  function See(t: Token, ns: seq<Big>): Token {
    RewriteToken(Settle(t, ns))
  }

  function Seer(ns: seq<Big>): Token -> Token {
    (t: Token) => See(t, ns)
  }

  /** A settled string is a string or the number of a big integer. */
  lemma {:induction false} SettledString(t: Token, ns: seq<Big>)
    requires t.TString?
    ensures Settle(t, ns) == t || exists n | n in ns :: Settle(t, ns) == TNumber(IntegerNumber(n))
  {
    if ns != [] {
      var next := ReplaceToken(t, Holder(ns[0]), IntegerNumber(ns[0]));
      if next == t {
        SettledString(t, ns[1..]);
      } else {
        SettleNonString(next, ns[1..]);
        assert ns[0] in ns;
      }
    }
  }

  lemma {:induction false} BigIsLarge(n: Big)
    ensures Large(IntegerNumber(n))
  {
  }

  lemma {:induction false} StringsStayStrings(cs: seq<Char>, ns: seq<Big>)
    ensures See(TString(cs), ns).TString?
  {
    SettledString(TString(cs), ns);
    if Settle(TString(cs), ns) != TString(cs) {
      var n :| n in ns && Settle(TString(cs), ns) == TNumber(IntegerNumber(n));
      BigIsLarge(n);
    }
  }

  lemma {:induction false} SeerTame(ns: seq<Big>)
    ensures Tame(Seer(ns))
  {
    forall t: Token ensures if t.TMark? then Seer(ns)(t) == t else !Seer(ns)(t).TMark? {
      if t.TMark? {
        SettleNonString(t, ns);
      } else {
        SettleNoMark(t, ns);
      }
    }
  }

  lemma {:induction false} NamesSeen(j: Json, ns: seq<Big>)
    ensures NamesKept(j, Seer(ns))
  {
    match j
    case JArray(_, es) => ElemsNamesSeen(es, ns);
    case JObject(_, ms) => MembersNamesSeen(ms, ns);
    case _ =>
  }

  lemma {:induction false} ElemsNamesSeen(es: seq<Elem>, ns: seq<Big>)
    ensures ElemsNamesKept(es, Seer(ns))
  {
    if es != [] {
      assert es decreases to es[0];
      NamesSeen(es[0].value, ns);
      ElemsNamesSeen(es[1..], ns);
    }
  }

  lemma {:induction false} MembersNamesSeen(ms: seq<Member>, ns: seq<Big>)
    ensures MembersNamesKept(ms, Seer(ns))
  {
    if ms != [] {
      assert ms decreases to ms[0];
      StringsStayStrings(ms[0].key, ns);
      NamesSeen(ms[0].elem.value, ns);
      MembersNamesSeen(ms[1..], ns);
    }
  }

  lemma {:induction false} SeeTwice(ts: seq<Token>, ns: seq<Big>)
    ensures MapTokens(MapTokens(ts, Settler(ns)), RewriteToken) == MapTokens(ts, Seer(ns))
  {
    if ts != [] {
      SeeTwice(ts[1..], ns);
      assert MapTokens(ts, Settler(ns))[1..] == MapTokens(ts[1..], Settler(ns));
    }
  }

  lemma {:induction false} SettledSeparated(ts: seq<Token>, ns: seq<Big>)
    requires Separated(ts)
    ensures Separated(MapTokens(ts, Settler(ns)))
    decreases ns
  {
    if ns == [] {
      SettleNothing(ts);
    } else {
      ReplacedSeparated(ts, ns[0]);
      SettledSeparated(ReplacedTokens(ts, ns[0]), ns[1..]);
      SettleStep(ts, ns);
    }
  }

  /** Without tangles, the scanner sees a document: the layout as settled and marked. */
  lemma {:induction false} WrittenDocument(v: JsValue, style: Style)
    requires AllUntailed(v, Bigs(v))
    ensures Outside(Write(v, style)) == DocumentText(MapElem(Document(v, style), Seer(Bigs(v))))
  {
    var ns := Bigs(v);
    var doc := Document(v, style);
    var ts := ElemTokens(doc);
    DocumentSeparated(doc);
    DocumentUntangled(v, style, ns);
    ReplaceEachToken(ts, ns);
    SettledSeparated(ts, ns);
    OutsideTokens(MapTokens(ts, Settler(ns)));
    SeeTwice(ts, ns);
    SeerTame(ns);
    NamesSeen(doc.value, ns);
    ElemMaps(doc, Seer(ns));
  }

  /** The value the parser sees in place of v. */
  function Seen(v: JsValue, style: Style, depth: nat, ns: seq<Big>): JsValue {
    Value(MapTree(Layout(v, style, depth), Seer(ns)), Plainly)
  }

  predicate Covers(ns: seq<Big>, ms: seq<Big>) {
    forall m | m in ms :: m in ns
  }

  lemma {:induction false} CoversBoth(ns: seq<Big>, a: seq<Big>, b: seq<Big>)
    requires Covers(ns, a + b)
    ensures Covers(ns, a) && Covers(ns, b)
  {
    forall m | m in a ensures m in ns {
      assert m in a + b;
    }
    forall m | m in b ensures m in ns {
      assert m in a + b;
    }
  }

  lemma {:induction false} SeenWord(w: Word, style: Style, depth: nat, ns: seq<Big>)
    ensures Seen(VWord(w), style, depth, ns) == VWord(w)
  {
    SettleNonString(TWord(w), ns);
  }

  /** A number comes back exactly if it does not print as an integer outside the safe range. */
  lemma {:induction false} SeenNumber(n: Number, style: Style, depth: nat, ns: seq<Big>)
    ensures Revive(Seen(VNumber(n), style, depth, ns)) == Some(VNumber(Printed(n))) <==> !Large(n)
  {
    var printed := TNumber(Printed(n));
    SettleNonString(printed, ns);
    assert Large(Printed(n)) <==> Large(n);
    assert Seen(VNumber(n), style, depth, ns) == Value(Leaf(RewriteToken(printed)), Plainly);
  }

  /** What a placeholder becomes. */
  function MarkedBig(n: Big): Text {
    MARKER + IntegerText(IntegerNumber(n))
  }

  lemma {:induction false} SeenHolder(n: Big, ns: seq<Big>)
    requires n in ns
    ensures See(TString(EscapeText(Holder(n))), ns) == TString(MarkedChars(IntegerNumber(n)))
    ensures CharsValue(MarkedChars(IntegerNumber(n))) == MarkedBig(n)
  {
    SettleHolder(n, ns);
    BigIsLarge(n);
    SpellPlainChars(MARKER + IntegerText(IntegerNumber(n)));
  }

  /** What a printed number below the safe range is read as. */
  lemma {:induction false} SeenPrinted(printed: Number, ns: seq<Big>)
    ensures See(TNumber(printed), ns) == RewriteToken(TNumber(printed))
    ensures Large(printed) ==> Revive(VString(CharsValue(MarkedChars(printed)))) == Some(VBigInt(IntegerValue(printed)))
  {
    SettleNonString(TNumber(printed), ns);
    if Large(printed) {
      SpellPlainChars(MARKER + IntegerText(printed));
      IntegerNumberUnique(printed);
      MarkedRevives(IntegerValue(printed));
    }
  }

  /** Below the safe range a big integer comes back exactly if it is not rounded. */
  lemma {:induction false} SeenRounded(n: int, style: Style, depth: nat, ns: seq<Big>)
    requires n < -MAX_SAFE
    ensures Revive(Seen(VBigInt(n), style, depth, ns)) == Some(VBigInt(n)) <==> style.rounded(n) == IntegerNumber(n)
  {
    var printed := style.rounded(n);
    SeenPrinted(printed, ns);
    assert Seen(VBigInt(n), style, depth, ns) == Value(Leaf(RewriteToken(TNumber(printed))), Plainly);
    if Large(printed) && IntegerValue(printed) == n {
      IntegerNumberUnique(printed);
    }
  }

  /** Other big integers come back, safe ones as numbers. */
  lemma {:induction false} SeenBigInt(n: int, style: Style, depth: nat, ns: seq<Big>)
    requires n >= -MAX_SAFE && (n > MAX_SAFE ==> n in ns)
    ensures Revive(Seen(VBigInt(n), style, depth, ns)) == Some(Normal(VBigInt(n)))
  {
    if n > MAX_SAFE {
      SeenHolder(n, ns);
      MarkedRevives(n);
    } else {
      SettleNonString(TNumber(IntegerNumber(n)), ns);
      assert !Large(IntegerNumber(n));
    }
  }

  /** The text of a string as the parser sees it. */
  function SeenText(s: Text, ns: seq<Big>): Text {
    CharsValue(MapName(EscapeText(s), Seer(ns)))
  }

  lemma {:induction false} SeenTextApart(s: Text, ns: seq<Big>)
    requires NoHolder(s, ns)
    ensures SeenText(s, ns) == s
  {
    SettleApart(s, ns);
    EscapeReadsBack(None, s);
  }

  lemma {:induction false} SeenTextMarked(s: Text, ns: seq<Big>) returns (n: Big)
    requires !NoHolder(s, ns)
    ensures n in ns && SeenText(s, ns) == MarkedBig(n)
  {
    n := HolderOf(s, ns);
    SeenHolder(n, ns);
  }

  /** A string comes back exactly if it is neither a placeholder nor marked. */
  lemma {:induction false} SeenString(text: Text, style: Style, depth: nat, ns: seq<Big>)
    ensures Revive(Seen(VString(text), style, depth, ns)) == Some(VString(text)) <==> NoHolder(text, ns) && !(MARKER <= text)
  {
    StringsStayStrings(EscapeText(text), ns);
    assert Seen(VString(text), style, depth, ns) == VString(SeenText(text, ns));
    if NoHolder(text, ns) {
      SeenTextApart(text, ns);
    } else {
      var n := SeenTextMarked(text, ns);
      MarkedRevives(n);
    }
  }

  // ---- arrays and objects -----------------------------------------------------------------------

  function SeenItems(vs: seq<JsValue>, style: Style, depth: nat, ns: seq<Big>): seq<JsValue> {
    ElemsValue(MapElems(LayoutItems(vs, style, depth), Seer(ns)), Plainly)
  }

  lemma {:induction false} SeenItemsHead(vs: seq<JsValue>, style: Style, depth: nat, ns: seq<Big>)
    requires vs != []
    ensures SeenItems(vs, style, depth, ns) == [Seen(vs[0], style, depth + 1, ns)] + SeenItems(vs[1..], style, depth, ns)
  {
    var es := LayoutItems(vs, style, depth);
    assert es[1..] == LayoutItems(vs[1..], style, depth);
    assert MapElems(es, Seer(ns))[0] == MapElem(es[0], Seer(ns)) && MapElems(es, Seer(ns))[1..] == MapElems(es[1..], Seer(ns));
  }

  function SeenProps(ps: seq<Prop>, style: Style, depth: nat, ns: seq<Big>): seq<Prop> {
    if ps == [] then []
    else
      [Prop(SeenText(ps[0].name, ns), Seen(ps[0].value, style, depth + 1, ns))] + SeenProps(ps[1..], style, depth, ns)
  }

  function PutAll(sofar: seq<Prop>, ps: seq<Prop>): seq<Prop>
    decreases ps
  {
    if ps == [] then sofar else PutAll(PutProp(sofar, ps[0].name, ps[0].value), ps[1..])
  }

  lemma {:induction false} MappedFirst(ms: seq<Member>, sofar: seq<Prop>, f: Token -> Token)
    requires ms != []
    ensures MembersValue(MapMembers(ms, f), sofar, Plainly)
         == MembersValue(MapMembers(ms[1..], f),
                         PutProp(sofar, CharsValue(MapName(ms[0].key, f)), Value(MapTree(ms[0].elem.value, f), Plainly)), Plainly)
  {
    var mapped := MapMembers(ms, f);
    assert mapped[0] == MapMember(ms[0], f) && mapped[1..] == MapMembers(ms[1..], f);
    assert MapMember(ms[0], f).elem == MapElem(ms[0].elem, f);
  }

  lemma {:induction false} MembersSeen(ps: seq<Prop>, sofar: seq<Prop>, style: Style, depth: nat, ns: seq<Big>)
    ensures MembersValue(MapMembers(LayoutProps(ps, style, depth), Seer(ns)), sofar, Plainly)
         == PutAll(sofar, SeenProps(ps, style, depth, ns))
    decreases ps
  {
    if ps != [] {
      var ms := LayoutProps(ps, style, depth);
      MappedFirst(ms, sofar, Seer(ns));
      assert ms[1..] == LayoutProps(ps[1..], style, depth);
      var first := Prop(SeenText(ps[0].name, ns), Seen(ps[0].value, style, depth + 1, ns));
      assert ms[0].key == EscapeText(ps[0].name) && ms[0].elem.value == Layout(ps[0].value, style, depth + 1);
      MembersSeen(ps[1..], PutProp(sofar, first.name, first.value), style, depth, ns);
      PutAllHead(sofar, first, SeenProps(ps[1..], style, depth, ns));
    }
  }

  lemma {:induction false} PutAllHead(sofar: seq<Prop>, p: Prop, ps: seq<Prop>)
    ensures PutAll(sofar, [p] + ps) == PutAll(PutProp(sofar, p.name, p.value), ps)
  {
    assert ([p] + ps)[1..] == ps;
  }

  // ---- names ------------------------------------------------------------------------------------

  predicate NamesApart(ps: seq<Prop>, ns: seq<Big>) {
    ps == [] || (NoHolder(ps[0].name, ns) && NamesApart(ps[1..], ns))
  }

  lemma {:induction false} PutFresh(ps: seq<Prop>, name: Text, v: JsValue)
    requires name !in Names(ps)
    ensures PutProp(ps, name, v) == ps + [Prop(name, v)]
  {
    if ps != [] {
      assert Names(ps)[0] == ps[0].name && Names(ps)[1..] == Names(ps[1..]);
      PutFresh(ps[1..], name, v);
    }
  }

  lemma {:induction false} NamesJoin(a: seq<Prop>, b: seq<Prop>)
    ensures Names(a + b) == Names(a) + Names(b)
  {
    if a == [] {
      assert a + b == b;
    } else {
      assert (a + b)[1..] == a[1..] + b;
      NamesJoin(a[1..], b);
    }
  }

  lemma {:induction false} FirstFresh(sofar: seq<Prop>, ps: seq<Prop>)
    requires ps != [] && Distinct(Names(sofar) + Names(ps))
    ensures ps[0].name !in Names(sofar)
  {
    var a, b := Names(sofar), Names(ps);
    assert (a + b)[|a|] == b[0];
    forall i | 0 <= i < |a| ensures a[i] != b[0] {
      assert (a + b)[i] == a[i];
    }
  }

  lemma {:induction false} NamesMove(sofar: seq<Prop>, ps: seq<Prop>)
    requires ps != []
    ensures Names(sofar + [ps[0]]) + Names(ps[1..]) == Names(sofar) + Names(ps)
  {
    NamesJoin(sofar, [ps[0]]);
    assert Names([ps[0]]) == [ps[0].name] + Names([ps[0]][1..]);
    assert Names(ps) == [ps[0].name] + Names(ps[1..]);
  }

  /** Distinct names are all kept, in order. */
  lemma {:induction false} PutAllDistinct(sofar: seq<Prop>, ps: seq<Prop>)
    requires Distinct(Names(sofar) + Names(ps))
    ensures PutAll(sofar, ps) == sofar + ps
    decreases ps
  {
    if ps == [] {
      assert sofar + ps == sofar;
    } else {
      FirstFresh(sofar, ps);
      PutFresh(sofar, ps[0].name, ps[0].value);
      NamesMove(sofar, ps);
      PutAllDistinct(sofar + [ps[0]], ps[1..]);
      assert sofar + [ps[0]] + ps[1..] == sofar + ps;
    }
  }

  lemma {:induction false} PutNames(ps: seq<Prop>, name: Text, v: JsValue, x: Text)
    ensures x in Names(PutProp(ps, name, v)) <==> x in Names(ps) || x == name
  {
    if ps != [] && ps[0].name != name {
      PutNames(ps[1..], name, v, x);
      NamesJoin([ps[0]], PutProp(ps[1..], name, v));
      assert Names(ps) == [ps[0].name] + Names(ps[1..]);
    } else if ps != [] {
      assert ([Prop(name, v)] + ps[1..])[1..] == ps[1..];
    }
  }

  lemma {:induction false} PutAllNames(sofar: seq<Prop>, ps: seq<Prop>, x: Text)
    requires x in Names(PutAll(sofar, ps))
    ensures x in Names(sofar) || x in Names(ps)
    decreases ps
  {
    if ps != [] {
      PutAllNames(PutProp(sofar, ps[0].name, ps[0].value), ps[1..], x);
      PutNames(sofar, ps[0].name, ps[0].value, x);
      assert Names(ps) == [ps[0].name] + Names(ps[1..]);
    }
  }

  lemma {:induction false} MarkedNoHolder(n: Big, ns: seq<Big>)
    ensures NoHolder(MarkedBig(n), ns)
  {
    if ns != [] {
      assert MarkedBig(n)[0] == 95 && Holder(ns[0])[0] == 48;
      MarkedNoHolder(n, ns[1..]);
    }
  }

  lemma {:induction false} SeenNames(ps: seq<Prop>, style: Style, depth: nat, ns: seq<Big>, x: Text)
    requires x in Names(SeenProps(ps, style, depth, ns))
    ensures NoHolder(x, ns)
  {
    if ps != [] {
      var seen := SeenProps(ps, style, depth, ns);
      assert seen[1..] == SeenProps(ps[1..], style, depth, ns) && Names(seen) == [seen[0].name] + Names(seen[1..]);
      if x == seen[0].name {
        if NoHolder(ps[0].name, ns) {
          SeenTextApart(ps[0].name, ns);
        } else {
          var n := SeenTextMarked(ps[0].name, ns);
          MarkedNoHolder(n, ns);
        }
      } else {
        SeenNames(ps[1..], style, depth, ns, x);
      }
    }
  }

  lemma {:induction false} SeenNamesApart(ps: seq<Prop>, style: Style, depth: nat, ns: seq<Big>)
    requires NamesApart(ps, ns)
    ensures Names(SeenProps(ps, style, depth, ns)) == Names(ps)
  {
    if ps != [] {
      SeenTextApart(ps[0].name, ns);
      SeenNamesApart(ps[1..], style, depth, ns);
      var seen := SeenProps(ps, style, depth, ns);
      assert seen[1..] == SeenProps(ps[1..], style, depth, ns);
    }
  }

  lemma {:induction false} NotApart(ps: seq<Prop>, ns: seq<Big>) returns (x: Text)
    requires !NamesApart(ps, ns)
    ensures x in Names(NormalProps(ps)) && !NoHolder(x, ns)
    ensures !AllStringsProps(ps, ApartFrom(ns))
  {
    var normal := NormalProps(ps);
    assert normal[1..] == NormalProps(ps[1..]) && Names(normal) == [ps[0].name] + Names(normal[1..]);
    if !NoHolder(ps[0].name, ns) {
      x := ps[0].name;
    } else {
      x := NotApart(ps[1..], ns);
    }
  }

  lemma {:induction false} RevivedNames(ps: seq<Prop>)
    requires ReviveProps(ps).Some?
    ensures Names(ReviveProps(ps).value) == Names(ps)
  {
    if ps != [] {
      RevivedNames(ps[1..]);
      var revived := ReviveProps(ps).value;
      assert revived[1..] == ReviveProps(ps[1..]).value;
    }
  }

  /** An object with a placeholder for a name never comes back. */
  lemma {:induction false} HolderNameLost(ps: seq<Prop>, style: Style, depth: nat, ns: seq<Big>)
    requires !NamesApart(ps, ns)
    ensures ReviveProps(PutAll([], SeenProps(ps, style, depth, ns))) != Some(NormalProps(ps))
    ensures !AllStringsProps(ps, ApartFrom(ns))
  {
    var x := NotApart(ps, ns);
    var seen := SeenProps(ps, style, depth, ns);
    if ReviveProps(PutAll([], seen)) == Some(NormalProps(ps)) {
      RevivedNames(PutAll([], seen));
      PutAllNames([], seen, x);
      SeenNames(ps, style, depth, ns, x);
    }
  }

  // ---- the round trip ---------------------------------------------------------------------------

  /** A value comes back exactly if none of its strings is marked, no string or name is a
      placeholder, and its numbers and big integers print as they are. */
  lemma {:induction false} RevivedIff(v: JsValue, style: Style, depth: nat, ns: seq<Big>)
    requires WellNamed(v) && Covers(ns, Bigs(v))
    ensures Revive(Seen(v, style, depth, ns)) == Some(Normal(v))
       <==> NoMarker(v) && AllStrings(v, ApartFrom(ns)) && Printable(v, style)
    decreases v
  {
    match v
    case VWord(w) => SeenWord(w, style, depth, ns);
    case VNumber(n) => SeenNumber(n, style, depth, ns);
    case VBigInt(n) =>
      if n < -MAX_SAFE {
        SeenRounded(n, style, depth, ns);
      } else {
        assert n > MAX_SAFE ==> n in Bigs(v);
        SeenBigInt(n, style, depth, ns);
      }
    case VString(text) => SeenString(text, style, depth, ns);
    case VArray(items) =>
      SeenArray(items, style, depth, ns);
      ItemsRevivedIff(items, style, depth, ns);
    case VObject(props) =>
      SeenObject(props, style, depth, ns);
      ObjectRevivedIff(props, style, depth, ns);
  }

  lemma {:induction false} SeenArray(vs: seq<JsValue>, style: Style, depth: nat, ns: seq<Big>)
    ensures Revive(Seen(VArray(vs), style, depth, ns)) == Some(Normal(VArray(vs)))
       <==> ReviveItems(SeenItems(vs, style, depth, ns)) == Some(NormalItems(vs))
  {
    assert Seen(VArray(vs), style, depth, ns) == VArray(SeenItems(vs, style, depth, ns));
  }

  lemma {:induction false} SeenObject(ps: seq<Prop>, style: Style, depth: nat, ns: seq<Big>)
    ensures Revive(Seen(VObject(ps), style, depth, ns)) == Some(Normal(VObject(ps)))
       <==> ReviveProps(PutAll([], SeenProps(ps, style, depth, ns))) == Some(NormalProps(ps))
  {
    MembersSeen(ps, [], style, depth, ns);
    assert Seen(VObject(ps), style, depth, ns) == VObject(PutAll([], SeenProps(ps, style, depth, ns)));
  }

  lemma {:induction false} ItemsRevivedIff(vs: seq<JsValue>, style: Style, depth: nat, ns: seq<Big>)
    requires WellNamedItems(vs) && Covers(ns, BigsItems(vs))
    ensures ReviveItems(SeenItems(vs, style, depth, ns)) == Some(NormalItems(vs))
       <==> NoMarkerItems(vs) && AllStringsItems(vs, ApartFrom(ns)) && PrintableItems(vs, style)
    decreases vs
  {
    if vs != [] {
      assert vs decreases to vs[0];
      CoversBoth(ns, Bigs(vs[0]), BigsItems(vs[1..]));
      RevivedIff(vs[0], style, depth + 1, ns);
      ItemsRevivedIff(vs[1..], style, depth, ns);
      SeenItemsHead(vs, style, depth, ns);
      ReviveItemsCons(Seen(vs[0], style, depth + 1, ns), SeenItems(vs[1..], style, depth, ns), NormalItems(vs));
      assert NormalItems(vs)[1..] == NormalItems(vs[1..]);
    }
  }

  lemma {:induction false} ReviveItemsCons(v: JsValue, vs: seq<JsValue>, expected: seq<JsValue>)
    requires expected != []
    ensures ReviveItems([v] + vs) == Some(expected)
       <==> Revive(v) == Some(expected[0]) && ReviveItems(vs) == Some(expected[1..])
  {
    assert ([v] + vs)[1..] == vs;
    ConsIff(expected, Revive(v), ReviveItems(vs));
  }

  lemma {:induction false} RevivePropsCons(p: Prop, ps: seq<Prop>, expected: seq<Prop>)
    requires expected != [] && p.name == expected[0].name
    ensures ReviveProps([p] + ps) == Some(expected)
       <==> Revive(p.value) == Some(expected[0].value) && ReviveProps(ps) == Some(expected[1..])
  {
    assert ([p] + ps)[1..] == ps;
    var first := Revive(p.value);
    ConsIff(expected, if first.Some? then Some(Prop(p.name, first.value)) else None, ReviveProps(ps));
  }

  lemma {:induction false} ObjectRevivedIff(ps: seq<Prop>, style: Style, depth: nat, ns: seq<Big>)
    requires Distinct(Names(ps)) && WellNamedProps(ps) && Covers(ns, BigsProps(ps))
    ensures ReviveProps(PutAll([], SeenProps(ps, style, depth, ns))) == Some(NormalProps(ps))
       <==> NoMarkerProps(ps) && AllStringsProps(ps, ApartFrom(ns)) && PrintableProps(ps, style)
    decreases ps, 1
  {
    if NamesApart(ps, ns) {
      var seen := SeenProps(ps, style, depth, ns);
      SeenNamesApart(ps, style, depth, ns);
      assert Names([]) + Names(seen) == Names(ps);
      PutAllDistinct([], seen);
      assert [] + seen == seen;
      PropsRevivedIff(ps, style, depth, ns);
    } else {
      HolderNameLost(ps, style, depth, ns);
    }
  }

  lemma {:induction false} PropsRevivedIff(ps: seq<Prop>, style: Style, depth: nat, ns: seq<Big>)
    requires NamesApart(ps, ns) && WellNamedProps(ps) && Covers(ns, BigsProps(ps))
    ensures ReviveProps(SeenProps(ps, style, depth, ns)) == Some(NormalProps(ps))
       <==> NoMarkerProps(ps) && AllStringsProps(ps, ApartFrom(ns)) && PrintableProps(ps, style)
    decreases ps, 0
  {
    if ps != [] {
      assert ps decreases to ps[0];
      CoversBoth(ns, Bigs(ps[0].value), BigsProps(ps[1..]));
      RevivedIff(ps[0].value, style, depth + 1, ns);
      PropsRevivedIff(ps[1..], style, depth, ns);
      SeenTextApart(ps[0].name, ns);
      var seen := Prop(ps[0].name, Seen(ps[0].value, style, depth + 1, ns));
      RevivePropsCons(seen, SeenProps(ps[1..], style, depth, ns), NormalProps(ps));
      assert NormalProps(ps)[1..] == NormalProps(ps[1..]);
    }
  }

  /** Whatever the indentation, a value reads back in normal form if and only if no string of it
      is marked, no string or name meets the placeholder of one of its own big integers, no
      number prints as an integer outside the safe range, and none below it is rounded. */
  lemma {:induction false} WriteReadsBack(v: JsValue, style: Style)
    requires WellNamed(v)
    ensures Read(Write(v, style)) == Some(Normal(v))
       <==> NoMarker(v) && Collisionless(v) && Printable(v, style)
  {
    var ns := Bigs(v);
    DocumentSeparated(Document(v, style));
    DocumentUntangled(v, style, ns);
    if AllUntailed(v, ns) {
      WrittenDocument(v, style);
      ParseDocument(MapElem(Document(v, style), Seer(ns)));
      RevivedIff(v, style, 0, ns);
    } else {
      TangledUnread(ElemTokens(Document(v, style)), ns);
    }
  }

  /** A big integer and a string that is its placeholder. */
  function Clash(n: Big): seq<JsValue> {
    [VBigInt(n), VString(Holder(n))]
  }

  lemma {:induction false} ClashTail(n: Big)
    ensures Clash(n) == [VBigInt(n)] + [VString(Holder(n))]
    ensures Clash(n)[1..] == [VString(Holder(n))] && Clash(n)[1..][1..] == []
  {
  }

  lemma {:induction false} ClashPrintable(n: Big, style: Style)
    ensures WellNamedItems(Clash(n)) && NoMarkerItems(Clash(n)) && PrintableItems(Clash(n), style)
  {
    ClashTail(n);
    assert Holder(n)[0] == 48 && MARKER[0] == 95;
    OneItem(VString(Holder(n)));
    var text := VString(Holder(n));
    assert [text][1..] == [] && Printable(text, style);
    assert PrintableItems([text], style);
  }

  lemma {:induction false} OneItem(v: JsValue)
    ensures WellNamedItems([v]) <==> WellNamed(v)
    ensures NoMarkerItems([v]) <==> NoMarker(v)
    ensures forall p :: AllStringsItems([v], p) <==> AllStrings(v, p)
    ensures BigsItems([v]) == Bigs(v)
  {
    assert [v][1..] == [];
  }

  lemma {:induction false} ClashCollides(n: Big)
    ensures !AllStringsItems(Clash(n), ApartFrom(BigsItems(Clash(n))))
  {
    ClashTail(n);
    OneItem(VString(Holder(n)));
    assert BigsItems(Clash(n)) == [n];
    assert !NoHolder(Holder(n), [n]);
  }

  /** Such a pair does not come back. */
  lemma {:induction false} PlaceholderStringLost(n: Big, style: Style)
    ensures WellNamed(VArray(Clash(n))) && NoMarker(VArray(Clash(n))) && Printable(VArray(Clash(n)), style)
    ensures Read(Write(VArray(Clash(n)), style)) != Some(Normal(VArray(Clash(n))))
  {
    ClashPrintable(n, style);
    ClashCollides(n);
    WriteReadsBack(VArray(Clash(n)), style);
  }

  /** A printed integer outside the safe range is read as a big integer. */
  lemma {:induction false} PrintedReadsBack(v: JsValue, printed: Number, style: Style)
    requires Bigs(v) == [] && Layout(v, style, 0) == JNumber(printed) && Large(printed)
    ensures Read(Write(v, style)) == Some(VBigInt(IntegerValue(printed)))
  {
    WrittenDocument(v, style);
    ParseDocument(MapElem(Document(v, style), Seer([])));
    SeenPrinted(printed, []);
  }

  /** A number that prints so comes back as a big integer. */
  lemma {:induction false} LargeNumberTurned(n: Number, style: Style)
    requires Large(n)
    ensures Read(Write(VNumber(n), style)) == Some(VBigInt(IntegerValue(n)))
  {
    PrintedReadsBack(VNumber(n), Printed(n), style);
  }

  /** Below the safe range, the rounded integer comes back. */
  lemma {:induction false} RoundedComesBack(n: int, style: Style)
    requires n < -MAX_SAFE && Large(style.rounded(n))
    ensures Read(Write(VBigInt(n), style)) == Some(VBigInt(IntegerValue(style.rounded(n))))
  {
    PrintedReadsBack(VBigInt(n), style.rounded(n), style);
  }
}
