/** Reading a JSON text: its tokens, then its value, as the standard parser does.
    The text of a syntax tree reads back as the tree's value. */
module JsonParse {
  import opened Wrappers
  import opened JsonText

  // ---- values ---------------------------------------------------------------------------

  /** A number is represented by its literal; an object lists its properties once each. */
  datatype JsValue =
    | VWord(word: Word)
    | VNumber(literal: Number)
    | VBigInt(int)
    | VString(text: Text)
    | VArray(items: seq<JsValue>)
    | VObject(props: seq<Prop>)

  datatype Prop = Prop(name: Text, value: JsValue)

  /** Assignment to a property: a repeated name keeps its place and the last value. */
  function PutProp(ps: seq<Prop>, name: Text, v: JsValue): seq<Prop> {
    if ps == [] then [Prop(name, v)]
    else if ps[0].name == name then [Prop(name, v)] + ps[1..]
    else [ps[0]] + PutProp(ps[1..], name, v)
  }

  /** The value a syntax tree stands for, given what its numbers stand for. */
  function Value(j: Json, number: Number -> JsValue): JsValue {
    match j
    case JWord(w) => VWord(w)
    case JNumber(n) => number(n)
    case JString(cs) => VString(CharsValue(cs))
    case JArray(_, es) => VArray(ElemsValue(es, number))
    case JObject(_, ms) => VObject(MembersValue(ms, [], number))
  }

  function ElemsValue(es: seq<Elem>, number: Number -> JsValue): seq<JsValue> {
    if es == [] then []
    else
      assert es decreases to es[0];
      [Value(es[0].value, number)] + ElemsValue(es[1..], number)
  }

  function MembersValue(ms: seq<Member>, sofar: seq<Prop>, number: Number -> JsValue): seq<Prop> {
    if ms == [] then sofar
    else
      assert ms decreases to ms[0];
      MembersValue(ms[1..], PutProp(sofar, CharsValue(ms[0].key), Value(ms[0].elem.value, number)), number)
  }

  /** What the standard parser makes of a number. */
  function Plainly(n: Number): JsValue {
    VNumber(n)
  }

  // ---- text to tokens -------------------------------------------------------------------

  datatype Lexed<+T> = Lexed(item: T, rest: Text)

  function DigitRun(s: Text): (r: seq<Digit>)
    ensures |r| <= |s|
  {
    if s == [] || !IsDigit(s[0]) then [] else [s[0]] + DigitRun(s[1..])
  }

  function LexDigits(s: Text): (r: Option<Lexed<Digits>>)
    ensures r.Some? ==> |r.value.rest| < |s|
  {
    var run := DigitRun(s);
    if run == [] then None else Some(Lexed(run, s[|run|..]))
  }

  function LexFraction(s: Text): (r: Option<Lexed<Option<Digits>>>)
    ensures r.Some? ==> |r.value.rest| <= |s|
  {
    if s == [] || s[0] != DOT then Some(Lexed(None, s))
    else
      var digits :- LexDigits(s[1..]);
      Some(Lexed(Some(digits.item), digits.rest))
  }

  function LexSign(s: Text): (r: Lexed<Option<Sign>>)
    ensures |r.rest| <= |s|
  {
    if s != [] && (s[0] == PLUS || s[0] == MINUS) then Lexed(Some(s[0]), s[1..]) else Lexed(None, s)
  }

  function LexExponent(s: Text): (r: Option<Lexed<Option<Exponent>>>)
    ensures r.Some? ==> |r.value.rest| <= |s|
  {
    if s == [] || !IsExponentMark(s[0]) then Some(Lexed(None, s))
    else
      var sign := LexSign(s[1..]);
      var power :- LexDigits(sign.rest);
      Some(Lexed(Some(Exponent(s[0], sign.item, power.item)), power.rest))
  }

  function LexMagnitude(s: Text, negative: bool): (r: Option<Lexed<Number>>)
    ensures r.Some? ==> |r.value.rest| < |s|
  {
    var digits :- LexDigits(s);
    if digits.item[0] == 48 && |digits.item| > 1 then None
    else
      var fraction :- LexFraction(digits.rest);
      var exponent :- LexExponent(fraction.rest);
      Some(Lexed(Number(negative, digits.item, fraction.item, exponent.item), exponent.rest))
  }

  function LexChar(s: Text): (r: Option<Lexed<Char>>)
    requires s != []
    ensures r.Some? ==> |r.value.rest| < |s|
  {
    if s[0] == BACKSLASH then
      if |s| >= 6 && s[1] == 117 then
        if IsHexDigit(s[2]) && IsHexDigit(s[3]) && IsHexDigit(s[4]) && IsHexDigit(s[5]) then
          Some(Lexed(Hex(s[2], s[3], s[4], s[5]), s[6..]))
        else None
      else if |s| >= 2 && s[1] in {34, 92, 47, 98, 102, 110, 114, 116} then Some(Lexed(Escape(s[1]), s[2..]))
      else None
    else if s[0] == QUOTE || s[0] < 0x20 then None
    else Some(Lexed(Plain(s[0]), s[1..]))
  }

  /** The chars up to the closing quotation mark. */
  function LexChars(s: Text): (r: Option<Lexed<seq<Char>>>)
    ensures r.Some? ==> |r.value.rest| < |s|
    decreases |s|
  {
    if s == [] then None
    else if s[0] == QUOTE then Some(Lexed([], s[1..]))
    else
      var first :- LexChar(s);
      var more :- LexChars(first.rest);
      Some(Lexed([first.item] + more.item, more.rest))
  }

  function LexToken(s: Text): (r: Option<Lexed<Token>>)
    requires s != []
    ensures r.Some? ==> |r.value.rest| < |s|
  {
    if IsPunctuation(s[0]) || IsSpace(s[0]) then Some(Lexed(TMark(s[0]), s[1..]))
    else if s[0] == QUOTE then
      var chars :- LexChars(s[1..]);
      Some(Lexed(TString(chars.item), chars.rest))
    else if s[0] == MINUS then
      var n :- LexMagnitude(s[1..], true);
      Some(Lexed(TNumber(n.item), n.rest))
    else if IsDigit(s[0]) then
      var n :- LexMagnitude(s, false);
      Some(Lexed(TNumber(n.item), n.rest))
    else
      var word :- LexWord(s);
      Some(Lexed(TWord(word.item), word.rest))
  }

  function LexWord(s: Text): (r: Option<Lexed<Word>>)
    ensures r.Some? ==> |r.value.rest| < |s|
  {
    if SpellWord(WordNull) <= s then Some(Lexed(WordNull, s[4..]))
    else if SpellWord(WordTrue) <= s then Some(Lexed(WordTrue, s[4..]))
    else if SpellWord(WordFalse) <= s then Some(Lexed(WordFalse, s[5..]))
    else None
  }

  function Lex(s: Text): Option<seq<Token>>
    decreases |s|
  {
    if s == [] then Some([])
    else
      var token :- LexToken(s);
      var more :- Lex(token.rest);
      Some([token.item] + more)
  }

  // ---- tokens to value ------------------------------------------------------------------

  datatype Parsed<+T> = Parsed(item: T, rest: seq<Token>)

  predicate IsSpaceToken(t: Token) {
    t.TMark? && IsSpace(t.unit)
  }

  function Significant(ts: seq<Token>): seq<Token> {
    if ts == [] then []
    else if IsSpaceToken(ts[0]) then Significant(ts[1..])
    else [ts[0]] + Significant(ts[1..])
  }

  predicate StartsWith(ts: seq<Token>, u: Mark) {
    ts != [] && ts[0] == TMark(u)
  }

  function ParseValue(ts: seq<Token>): (r: Option<Parsed<JsValue>>)
    ensures r.Some? ==> |r.value.rest| < |ts|
    decreases |ts|, 0
  {
    if ts == [] then None
    else match ts[0]
      case TWord(w) => Some(Parsed(VWord(w), ts[1..]))
      case TNumber(n) => Some(Parsed(Plainly(n), ts[1..]))
      case TString(cs) => Some(Parsed(VString(CharsValue(cs)), ts[1..]))
      case TMark(u) =>
        if u == LEFT_BRACKET then
          if StartsWith(ts[1..], RIGHT_BRACKET) then Some(Parsed(VArray([]), ts[2..]))
          else
            var items :- ParseElems(ts[1..]);
            Some(Parsed(VArray(items.item), items.rest))
        else if u == LEFT_BRACE then
          if StartsWith(ts[1..], RIGHT_BRACE) then Some(Parsed(VObject([]), ts[2..]))
          else
            var props :- ParseMembers(ts[1..], []);
            Some(Parsed(VObject(props.item), props.rest))
        else None
  }

  function ParseElems(ts: seq<Token>): (r: Option<Parsed<seq<JsValue>>>)
    ensures r.Some? ==> |r.value.rest| < |ts|
    decreases |ts|, 1
  {
    var first :- ParseValue(ts);
    if StartsWith(first.rest, RIGHT_BRACKET) then Some(Parsed([first.item], first.rest[1..]))
    else if StartsWith(first.rest, COMMA) then
      var more :- ParseElems(first.rest[1..]);
      Some(Parsed([first.item] + more.item, more.rest))
    else None
  }

  function ParseMembers(ts: seq<Token>, sofar: seq<Prop>): (r: Option<Parsed<seq<Prop>>>)
    ensures r.Some? ==> |r.value.rest| < |ts|
    decreases |ts|, 1
  {
    if ts == [] || !ts[0].TString? || !StartsWith(ts[1..], COLON) then None
    else
      var first :- ParseValue(ts[2..]);
      var now := PutProp(sofar, CharsValue(ts[0].chars), first.item);
      if StartsWith(first.rest, RIGHT_BRACE) then Some(Parsed(now, first.rest[1..]))
      else if StartsWith(first.rest, COMMA) then ParseMembers(first.rest[1..], now)
      else None
  }

  /** The value of a whole text, or None for a syntax error. */
  function Parse(s: Text): Option<JsValue> {
    var tokens :- Lex(s);
    var value :- ParseValue(Significant(tokens));
    if value.rest == [] then Some(value.item) else None
  }

  // ---- the tokens of a text read back ---------------------------------------------------

  /** The next unit, if any, belongs neither to a number nor to a word. */
  predicate Breaks(rest: Text) {
    rest == [] || IsPunctuation(rest[0]) || IsSpace(rest[0])
  }

  lemma {:induction false} DigitsReadBack(digits: seq<Digit>, rest: Text)
    requires rest == [] || !IsDigit(rest[0])
    ensures DigitRun(digits + rest) == digits
  {
    if digits != [] {
      assert (digits + rest)[1..] == digits[1..] + rest;
      DigitsReadBack(digits[1..], rest);
    } else {
      assert digits + rest == rest;
    }
  }

  lemma {:induction false} LexDigitsReadBack(digits: Digits, rest: Text)
    requires rest == [] || !IsDigit(rest[0])
    ensures LexDigits(digits + rest) == Some(Lexed(digits, rest))
  {
    DigitsReadBack(digits, rest);
    assert (digits + rest)[|digits|..] == rest;
  }

  lemma {:induction false} SignReadsBack(sign: Option<Sign>, rest: Text)
    requires rest != [] && IsDigit(rest[0])
    ensures LexSign(SpellSign(sign) + rest) == Lexed(sign, rest)
  {
    if sign.Some? {
      assert (SpellSign(sign) + rest)[1..] == rest;
    } else {
      assert SpellSign(sign) + rest == rest;
    }
  }

  lemma {:induction false} ExponentReadsBack(e: Option<Exponent>, rest: Text)
    requires Breaks(rest)
    ensures LexExponent(SpellExponent(e) + rest) == Some(Lexed(e, rest))
  {
    if e.None? {
      assert SpellExponent(e) + rest == rest;
    } else {
      PowerReadsBack(e.value, rest);
    }
  }

  lemma {:induction false} PowerReadsBack(e: Exponent, rest: Text)
    requires Breaks(rest)
    ensures LexExponent(SpellExponent(Some(e)) + rest) == Some(Lexed(Some(e), rest))
  {
    var s := SpellExponent(Some(e)) + rest;
    var tail := e.power + rest;
    assert s[0] == e.mark && s[1..] == SpellSign(e.sign) + tail;
    assert tail[0] == e.power[0];
    SignReadsBack(e.sign, tail);
    LexDigitsReadBack(e.power, rest);
  }

  lemma {:induction false} FractionReadsBack(f: Option<Digits>, rest: Text)
    requires rest == [] || (!IsDigit(rest[0]) && rest[0] != DOT)
    ensures LexFraction(SpellFraction(f) + rest) == Some(Lexed(f, rest))
  {
    if f.Some? {
      assert (SpellFraction(f) + rest)[1..] == f.value + rest;
      LexDigitsReadBack(f.value, rest);
    } else {
      assert SpellFraction(f) + rest == rest;
    }
  }

  lemma {:induction false} MagnitudeReadsBack(n: Number, rest: Text)
    requires Breaks(rest)
    ensures LexMagnitude(SpellMagnitude(n) + rest, n.negative) == Some(Lexed(n, rest))
  {
    var tail := SpellExponent(n.exponent) + rest;
    assert tail == [] || !IsDigit(tail[0]);
    assert SpellMagnitude(n) + rest == n.digits + (SpellFraction(n.fraction) + tail);
    LexDigitsReadBack(n.digits, SpellFraction(n.fraction) + tail);
    FractionReadsBack(n.fraction, tail);
    ExponentReadsBack(n.exponent, rest);
  }

  lemma {:induction false} CharsReadBack(cs: seq<Char>, rest: Text)
    ensures LexChars(SpellChars(cs) + ([QUOTE] + rest)) == Some(Lexed(cs, rest))
  {
    var s := SpellChars(cs) + ([QUOTE] + rest);
    if cs == [] {
      assert s == [QUOTE] + rest;
      assert s[1..] == rest;
    } else {
      var tail := SpellChars(cs[1..]) + ([QUOTE] + rest);
      assert s == SpellChar(cs[0]) + tail;
      CharReadsBack(cs[0], tail);
      CharsReadBack(cs[1..], rest);
      assert [cs[0]] + cs[1..] == cs;
    }
  }

  lemma {:induction false} CharReadsBack(c: Char, rest: Text)
    ensures LexChar(SpellChar(c) + rest) == Some(Lexed(c, rest)) && SpellChar(c)[0] != QUOTE
  {
    var s := SpellChar(c) + rest;
    match c
    case Plain(_) => assert s[1..] == rest;
    case Escape(_) => assert s[2..] == rest;
    case Hex(_, _, _, _) => assert s[6..] == rest;
  }

  lemma {:induction false} WordReadsBack(w: Word, rest: Text)
    ensures LexToken(SpellWord(w) + rest) == Some(Lexed(TWord(w), rest))
  {
    var s := SpellWord(w) + rest;
    assert s[|SpellWord(w)|..] == rest;
    assert s[0] == SpellWord(w)[0];
    match w
    case WordNull => assert SpellWord(w) <= s;
    case WordTrue =>
      assert SpellWord(w) <= s;
      assert SpellWord(WordNull)[0] != s[0];
    case WordFalse =>
      assert SpellWord(w) <= s;
      assert SpellWord(WordNull)[0] != s[0];
      assert SpellWord(WordTrue)[0] != s[0];
  }

  lemma {:induction false} TokenAtDigit(s: Text, n: Lexed<Number>)
    requires s != [] && IsDigit(s[0]) && LexMagnitude(s, false) == Some(n)
    ensures LexToken(s) == Some(Lexed(TNumber(n.item), n.rest))
  {
  }

  lemma {:induction false} TokenAtMinus(s: Text, n: Lexed<Number>)
    requires s != [] && s[0] == MINUS && LexMagnitude(s[1..], true) == Some(n)
    ensures LexToken(s) == Some(Lexed(TNumber(n.item), n.rest))
  {
  }

  lemma {:induction false} MinusSplit(magnitude: Text, rest: Text)
    ensures ([MINUS] + magnitude + rest)[0] == MINUS && ([MINUS] + magnitude + rest)[1..] == magnitude + rest
  {
  }

  lemma {:induction false} NumberReadsBack(n: Number, rest: Text)
    requires Breaks(rest)
    ensures LexToken(SpellNumber(n) + rest) == Some(Lexed(TNumber(n), rest))
  {
    var magnitude := SpellMagnitude(n);
    MagnitudeReadsBack(n, rest);
    if n.negative {
      MinusSplit(magnitude, rest);
      TokenAtMinus([MINUS] + magnitude + rest, Lexed(n, rest));
    } else {
      TokenAtDigit(magnitude + rest, Lexed(n, rest));
    }
  }

  lemma {:induction false} StringReadsBack(cs: seq<Char>, rest: Text)
    ensures LexToken(SpellToken(TString(cs)) + rest) == Some(Lexed(TString(cs), rest))
  {
    var s := SpellToken(TString(cs)) + rest;
    assert s[0] == QUOTE && s[1..] == SpellChars(cs) + ([QUOTE] + rest);
    CharsReadBack(cs, rest);
  }

  lemma {:induction false} TokenReadsBack(t: Token, rest: Text)
    requires t.TMark? || Breaks(rest)
    ensures LexToken(SpellToken(t) + rest) == Some(Lexed(t, rest))
  {
    match t
    case TMark(u) =>
      var s := SpellToken(t) + rest;
      assert s[0] == u && s[1..] == rest;
    case TString(cs) => StringReadsBack(cs, rest);
    case TNumber(n) => NumberReadsBack(n, rest);
    case TWord(w) => WordReadsBack(w, rest);
  }

  lemma {:induction false} TokensReadBack(ts: seq<Token>)
    requires Separated(ts)
    ensures Lex(Spell(ts)) == Some(ts)
  {
    if ts != [] {
      var rest := Spell(ts[1..]);
      if !ts[0].TMark? {
        MarkBreaks(ts[1..]);
      }
      TokenReadsBack(ts[0], rest);
      TokensReadBack(ts[1..]);
      assert [ts[0]] + ts[1..] == ts;
    }
  }

  lemma {:induction false} MarkBreaks(ts: seq<Token>)
    requires MarkFirst(ts)
    ensures Breaks(Spell(ts))
  {
  }

  // ---- the value of a tree reads back ---------------------------------------------------

  lemma {:induction false} SignificantJoin(a: seq<Token>, b: seq<Token>)
    ensures Significant(a + b) == Significant(a) + Significant(b)
  {
    if a == [] {
      assert a + b == b;
    } else {
      assert (a + b)[1..] == a[1..] + b;
      SignificantJoin(a[1..], b);
    }
  }

  lemma {:induction false} SpaceInsignificant(s: seq<Space>, ts: seq<Token>)
    ensures Significant(SpaceTokens(s) + ts) == Significant(ts)
  {
    if s == [] {
      assert SpaceTokens(s) + ts == ts;
    } else {
      assert (SpaceTokens(s) + ts)[1..] == SpaceTokens(s[1..]) + ts;
      SpaceInsignificant(s[1..], ts);
    }
  }

  /** The tokens of a tree without its white space. */
  function Core(j: Json): seq<Token> {
    match j
    case JWord(w) => [TWord(w)]
    case JNumber(n) => [TNumber(n)]
    case JString(cs) => [TString(cs)]
    case JArray(_, es) => [TMark(LEFT_BRACKET)] + (CoreElems(es) + [TMark(RIGHT_BRACKET)])
    case JObject(_, ms) => [TMark(LEFT_BRACE)] + (CoreMembers(ms) + [TMark(RIGHT_BRACE)])
  }

  function CoreElems(es: seq<Elem>): seq<Token> {
    if es == [] then []
    else
      assert es decreases to es[0];
      Core(es[0].value) + (if |es| == 1 then [] else [TMark(COMMA)] + CoreElems(es[1..]))
  }

  function CoreMember(m: Member): seq<Token> {
    [TString(m.key), TMark(COLON)] + Core(m.elem.value)
  }

  function CoreMembers(ms: seq<Member>): seq<Token> {
    if ms == [] then []
    else
      assert ms decreases to ms[0];
      CoreMember(ms[0]) + (if |ms| == 1 then [] else [TMark(COMMA)] + CoreMembers(ms[1..]))
  }

  lemma {:induction false} SpaceAfter(ts: seq<Token>, s: seq<Space>)
    ensures Significant(ts + SpaceTokens(s)) == Significant(ts)
  {
    SignificantJoin(ts, SpaceTokens(s));
    SpaceInsignificant(s, []);
    assert SpaceTokens(s) + [] == SpaceTokens(s);
  }

  lemma {:induction false} CoreIsSignificant(j: Json)
    ensures Significant(Tokens(j)) == Core(j)
  {
    match j
    case JWord(_) =>
    case JNumber(_) =>
    case JString(_) =>
    case JArray(space, es) =>
      var close := [TMark(RIGHT_BRACKET)];
      ElemsSignificant(es);
      SignificantJoin(ElemsTokens(es), close);
      SpaceInsignificant(space, ElemsTokens(es) + close);
      OpensSignificant(LEFT_BRACKET, SpaceTokens(space) + (ElemsTokens(es) + close));
    case JObject(space, ms) =>
      var close := [TMark(RIGHT_BRACE)];
      MembersSignificant(ms);
      SignificantJoin(MembersTokens(ms), close);
      SpaceInsignificant(space, MembersTokens(ms) + close);
      OpensSignificant(LEFT_BRACE, SpaceTokens(space) + (MembersTokens(ms) + close));
  }

  lemma {:induction false} OpensSignificant(u: Mark, ts: seq<Token>)
    requires !IsSpace(u)
    ensures Significant([TMark(u)] + ts) == [TMark(u)] + Significant(ts)
  {
    assert ([TMark(u)] + ts)[1..] == ts;
  }

  lemma {:induction false} ElemSignificant(e: Elem)
    ensures Significant(ElemTokens(e)) == Core(e.value)
  {
    CoreIsSignificant(e.value);
    SpaceAfter(Tokens(e.value), e.after);
    SpaceInsignificant(e.before, Tokens(e.value) + SpaceTokens(e.after));
  }

  lemma {:induction false} ElemsSignificant(es: seq<Elem>)
    ensures Significant(ElemsTokens(es)) == CoreElems(es)
  {
    if es != [] {
      assert es decreases to es[0];
      ElemSignificant(es[0]);
      if |es| > 1 {
        ElemsSignificant(es[1..]);
        OpensSignificant(COMMA, ElemsTokens(es[1..]));
      }
      SignificantJoin(ElemTokens(es[0]), if |es| == 1 then [] else [TMark(COMMA)] + ElemsTokens(es[1..]));
    }
  }

  lemma {:induction false} MemberSignificant(m: Member)
    ensures Significant(MemberTokens(m)) == CoreMember(m)
  {
    ElemSignificant(m.elem);
    var value := ElemTokens(m.elem);
    OpensSignificant(COLON, value);
    SpaceInsignificant(m.mid, [TMark(COLON)] + value);
    var afterKey := SpaceTokens(m.mid) + ([TMark(COLON)] + value);
    assert ([TString(m.key)] + afterKey)[1..] == afterKey;
    SpaceInsignificant(m.before, [TString(m.key)] + afterKey);
  }

  lemma {:induction false} MembersSignificant(ms: seq<Member>)
    ensures Significant(MembersTokens(ms)) == CoreMembers(ms)
  {
    if ms != [] {
      assert ms decreases to ms[0];
      MemberSignificant(ms[0]);
      if |ms| > 1 {
        MembersSignificant(ms[1..]);
        OpensSignificant(COMMA, MembersTokens(ms[1..]));
      }
      SignificantJoin(MemberTokens(ms[0]), if |ms| == 1 then [] else [TMark(COMMA)] + MembersTokens(ms[1..]));
    }
  }

  lemma {:induction false} CoreOpens(j: Json)
    ensures Core(j) != [] && Core(j)[0] !in {TMark(RIGHT_BRACKET), TMark(RIGHT_BRACE)}
  {
  }

  lemma {:induction false} ValueReadsBack(j: Json, rest: seq<Token>)
    ensures ParseValue(Core(j) + rest) == Some(Parsed(Value(j, Plainly), rest))
  {
    var ts := Core(j) + rest;
    match j
    case JWord(_) => assert ts[1..] == rest;
    case JNumber(_) => assert ts[1..] == rest;
    case JString(_) => assert ts[1..] == rest;
    case JArray(_, es) =>
      assert ts[1..] == CoreElems(es) + ([TMark(RIGHT_BRACKET)] + rest);
      if es == [] {
        assert ts[2..] == rest;
      } else {
        assert es decreases to es[0];
        CoreOpens(es[0].value);
        ElemsReadBack(es, rest);
      }
    case JObject(_, ms) =>
      assert ts[1..] == CoreMembers(ms) + ([TMark(RIGHT_BRACE)] + rest);
      if ms == [] {
        assert ts[2..] == rest;
      } else {
        assert ts[1..][0] == TString(ms[0].key);
        MembersReadBack(ms, [], rest);
      }
  }

  lemma {:induction false} LastElem(ts: seq<Token>, v: JsValue, rest: seq<Token>)
    requires ParseValue(ts) == Some(Parsed(v, [TMark(RIGHT_BRACKET)] + rest))
    ensures ParseElems(ts) == Some(Parsed([v], rest))
  {
    assert ([TMark(RIGHT_BRACKET)] + rest)[1..] == rest;
  }

  lemma {:induction false} NextElem(ts: seq<Token>, v: JsValue, more: seq<Token>, vs: Parsed<seq<JsValue>>)
    requires ParseValue(ts) == Some(Parsed(v, [TMark(COMMA)] + more)) && ParseElems(more) == Some(vs)
    ensures ParseElems(ts) == Some(Parsed([v] + vs.item, vs.rest))
  {
    assert ([TMark(COMMA)] + more)[1..] == more;
  }

  lemma {:induction false} ElemsReadBack(es: seq<Elem>, rest: seq<Token>)
    requires es != []
    ensures ParseElems(CoreElems(es) + ([TMark(RIGHT_BRACKET)] + rest)) == Some(Parsed(ElemsValue(es, Plainly), rest))
  {
    assert es decreases to es[0];
    var close := [TMark(RIGHT_BRACKET)] + rest;
    var v := Value(es[0].value, Plainly);
    if |es| == 1 {
      assert CoreElems(es) + close == Core(es[0].value) + close;
      ValueReadsBack(es[0].value, close);
      LastElem(Core(es[0].value) + close, v, rest);
      assert ElemsValue(es, Plainly) == [v];
    } else {
      var more := CoreElems(es[1..]) + close;
      assert CoreElems(es) + close == Core(es[0].value) + ([TMark(COMMA)] + more);
      ValueReadsBack(es[0].value, [TMark(COMMA)] + more);
      ElemsReadBack(es[1..], rest);
      NextElem(CoreElems(es) + close, v, more, Parsed(ElemsValue(es[1..], Plainly), rest));
    }
  }

  predicate Names(ts: seq<Token>, key: seq<Char>, v: JsValue, rest: seq<Token>) {
    |ts| > 1 && ts[0] == TString(key) && StartsWith(ts[1..], COLON) && ParseValue(ts[2..]) == Some(Parsed(v, rest))
  }

  lemma {:induction false} LastMember(ts: seq<Token>, sofar: seq<Prop>, key: seq<Char>, v: JsValue, rest: seq<Token>)
    requires Names(ts, key, v, [TMark(RIGHT_BRACE)] + rest)
    ensures ParseMembers(ts, sofar) == Some(Parsed(PutProp(sofar, CharsValue(key), v), rest))
  {
    assert ([TMark(RIGHT_BRACE)] + rest)[1..] == rest;
  }

  lemma {:induction false} NextMember(ts: seq<Token>, sofar: seq<Prop>, key: seq<Char>, v: JsValue, more: seq<Token>)
    requires Names(ts, key, v, [TMark(COMMA)] + more)
    ensures ParseMembers(ts, sofar) == ParseMembers(more, PutProp(sofar, CharsValue(key), v))
  {
    assert ([TMark(COMMA)] + more)[1..] == more;
  }

  lemma {:induction false} CommaBetween(first: seq<Token>, others: seq<Token>, close: seq<Token>)
    ensures first + ([TMark(COMMA)] + others) + close == first + ([TMark(COMMA)] + (others + close))
  {
  }

  lemma {:induction false} CoreMembersSplit(ms: seq<Member>, close: seq<Token>)
    requires |ms| > 1
    ensures CoreMembers(ms) + close == CoreMember(ms[0]) + ([TMark(COMMA)] + (CoreMembers(ms[1..]) + close))
  {
    CommaBetween(CoreMember(ms[0]), CoreMembers(ms[1..]), close);
  }

  lemma {:induction false} MembersReadBack(ms: seq<Member>, sofar: seq<Prop>, rest: seq<Token>)
    requires ms != []
    ensures ParseMembers(CoreMembers(ms) + ([TMark(RIGHT_BRACE)] + rest), sofar)
         == Some(Parsed(MembersValue(ms, sofar, Plainly), rest))
  {
    assert ms decreases to ms[0];
    var close := [TMark(RIGHT_BRACE)] + rest;
    var m := ms[0];
    var v := Value(m.elem.value, Plainly);
    if |ms| == 1 {
      assert ms[1..] == [] && CoreMember(m) + [] == CoreMember(m);
      MemberReadsBack(m, close);
      LastMember(CoreMember(m) + close, sofar, m.key, v, rest);
    } else {
      var more := CoreMembers(ms[1..]) + close;
      CoreMembersSplit(ms, close);
      MemberReadsBack(m, [TMark(COMMA)] + more);
      NextMember(CoreMembers(ms) + close, sofar, m.key, v, more);
      MembersReadBack(ms[1..], PutProp(sofar, CharsValue(m.key), v), rest);
    }
  }

  lemma {:induction false} MemberReadsBack(m: Member, rest: seq<Token>)
    ensures Names(CoreMember(m) + rest, m.key, Value(m.elem.value, Plainly), rest)
  {
    assert (CoreMember(m) + rest)[2..] == Core(m.elem.value) + rest;
    ValueReadsBack(m.elem.value, rest);
  }

  /** Every text of a document reads back as the value of its syntax tree. */
  lemma {:induction false} ParseDocument(doc: Elem)
    ensures Parse(DocumentText(doc)) == Some(Value(doc.value, Plainly))
  {
    DocumentSeparated(doc);
    TokensReadBack(ElemTokens(doc));
    ElemSignificant(doc);
    ValueReadsBack(doc.value, []);
    assert Core(doc.value) + [] == Core(doc.value);
  }

  // ---- tokens of a tree never touch -----------------------------------------------------

  /** Tokens that never touch, starting with a mark if anything at all. */
  predicate Follows(ts: seq<Token>) {
    Separated(ts) && MarkFirst(ts)
  }

  lemma {:induction false} MarkFollows(u: Mark, ts: seq<Token>)
    requires Separated(ts)
    ensures Follows([TMark(u)] + ts)
  {
    assert ([TMark(u)] + ts)[1..] == ts;
  }

  lemma {:induction false} SpaceFollows(s: seq<Space>, ts: seq<Token>)
    requires Separated(ts)
    ensures Separated(SpaceTokens(s) + ts) && (MarkFirst(ts) ==> Follows(SpaceTokens(s) + ts))
  {
    if s == [] {
      assert SpaceTokens(s) + ts == ts;
    } else {
      assert SpaceTokens(s) + ts == [TMark(s[0])] + (SpaceTokens(s[1..]) + ts);
      SpaceFollows(s[1..], ts);
      MarkFollows(s[0], SpaceTokens(s[1..]) + ts);
    }
  }

  lemma {:induction false} OneSeparated(t: Token, ts: seq<Token>)
    requires Follows(ts)
    ensures Separated([t] + ts)
  {
    assert ([t] + ts)[1..] == ts;
  }

  lemma {:induction false} BracketsSeparated(open: Mark, space: seq<Space>, inner: seq<Token>, close: Mark, rest: seq<Token>)
    requires Separated(inner + ([TMark(close)] + rest))
    ensures Separated([TMark(open)] + (SpaceTokens(space) + (inner + [TMark(close)])) + rest)
  {
    var tail := inner + ([TMark(close)] + rest);
    SpaceFollows(space, tail);
    MarkFollows(open, SpaceTokens(space) + tail);
    assert [TMark(open)] + (SpaceTokens(space) + (inner + [TMark(close)])) + rest == [TMark(open)] + (SpaceTokens(space) + tail);
  }

  lemma {:induction false} TreeSeparated(j: Json, rest: seq<Token>)
    requires Follows(rest)
    ensures Separated(Tokens(j) + rest)
  {
    match j
    case JWord(w) => OneSeparated(TWord(w), rest);
    case JNumber(n) => OneSeparated(TNumber(n), rest);
    case JString(cs) => OneSeparated(TString(cs), rest);
    case JArray(space, es) =>
      MarkFollows(RIGHT_BRACKET, rest);
      ElemsSeparated(es, [TMark(RIGHT_BRACKET)] + rest);
      BracketsSeparated(LEFT_BRACKET, space, ElemsTokens(es), RIGHT_BRACKET, rest);
    case JObject(space, ms) =>
      MarkFollows(RIGHT_BRACE, rest);
      MembersSeparated(ms, [TMark(RIGHT_BRACE)] + rest);
      BracketsSeparated(LEFT_BRACE, space, MembersTokens(ms), RIGHT_BRACE, rest);
  }

  lemma {:induction false} ElemSeparated(e: Elem, rest: seq<Token>)
    requires Follows(rest)
    ensures Separated(ElemTokens(e) + rest)
  {
    SpaceFollows(e.after, rest);
    TreeSeparated(e.value, SpaceTokens(e.after) + rest);
    SpaceFollows(e.before, Tokens(e.value) + (SpaceTokens(e.after) + rest));
    assert ElemTokens(e) + rest == SpaceTokens(e.before) + (Tokens(e.value) + (SpaceTokens(e.after) + rest));
  }

  lemma {:induction false} ElemsSeparated(es: seq<Elem>, rest: seq<Token>)
    requires Follows(rest)
    ensures Separated(ElemsTokens(es) + rest)
  {
    if es == [] {
      assert ElemsTokens(es) + rest == rest;
    } else {
      assert es decreases to es[0];
      if |es| == 1 {
        ElemSeparated(es[0], rest);
        assert ElemsTokens(es) + rest == ElemTokens(es[0]) + rest;
      } else {
        var more := [TMark(COMMA)] + (ElemsTokens(es[1..]) + rest);
        ElemsSeparated(es[1..], rest);
        MarkFollows(COMMA, ElemsTokens(es[1..]) + rest);
        ElemSeparated(es[0], more);
        assert ElemsTokens(es) + rest == ElemTokens(es[0]) + more;
      }
    }
  }

  lemma {:induction false} MemberSeparated(m: Member, rest: seq<Token>)
    requires Follows(rest)
    ensures Separated(MemberTokens(m) + rest)
  {
    ElemSeparated(m.elem, rest);
    var value := ElemTokens(m.elem) + rest;
    MarkFollows(COLON, value);
    var afterKey := SpaceTokens(m.mid) + ([TMark(COLON)] + value);
    SpaceFollows(m.mid, [TMark(COLON)] + value);
    OneSeparated(TString(m.key), afterKey);
    SpaceFollows(m.before, [TString(m.key)] + afterKey);
    assert MemberTokens(m) + rest == SpaceTokens(m.before) + ([TString(m.key)] + afterKey);
  }

  lemma {:induction false} MembersSeparated(ms: seq<Member>, rest: seq<Token>)
    requires Follows(rest)
    ensures Separated(MembersTokens(ms) + rest)
  {
    if ms == [] {
      assert MembersTokens(ms) + rest == rest;
    } else {
      assert ms decreases to ms[0];
      if |ms| == 1 {
        MemberSeparated(ms[0], rest);
        assert MembersTokens(ms) + rest == MemberTokens(ms[0]) + rest;
      } else {
        var more := [TMark(COMMA)] + (MembersTokens(ms[1..]) + rest);
        MembersSeparated(ms[1..], rest);
        MarkFollows(COMMA, MembersTokens(ms[1..]) + rest);
        MemberSeparated(ms[0], more);
        assert MembersTokens(ms) + rest == MemberTokens(ms[0]) + more;
      }
    }
  }

  lemma {:induction false} DocumentSeparated(doc: Elem)
    ensures Separated(ElemTokens(doc))
  {
    ElemSeparated(doc, []);
    assert ElemTokens(doc) + [] == ElemTokens(doc);
  }
}
