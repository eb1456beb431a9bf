/** JSON texts (RFC 8259, sections 2 to 7) as UTF-16 code units: their syntax trees,
    their tokens, and the spelling of both. */
module JsonText {
  import opened Wrappers

  type Unit = n: int | 0 <= n < 0x1_0000
  type Text = seq<Unit>

  const QUOTE: Unit := 34
  const PLUS: Unit := 43
  const COMMA: Unit := 44
  const MINUS: Unit := 45
  const DOT: Unit := 46
  const COLON: Unit := 58
  const LEFT_BRACKET: Unit := 91
  const BACKSLASH: Unit := 92
  const RIGHT_BRACKET: Unit := 93
  const LEFT_BRACE: Unit := 123
  const RIGHT_BRACE: Unit := 125

  predicate IsDigit(u: Unit) {
    48 <= u <= 57
  }

  predicate IsExponentMark(u: Unit) {
    u == 101 || u == 69
  }

  predicate IsSpace(u: Unit) {
    u == 32 || u == 9 || u == 10 || u == 13
  }

  predicate IsPunctuation(u: Unit) {
    u == COMMA || u == COLON || u == LEFT_BRACKET || u == RIGHT_BRACKET || u == LEFT_BRACE || u == RIGHT_BRACE
  }

  type Digit = u: Unit | IsDigit(u) witness 48
  type Space = u: Unit | IsSpace(u) witness 32
  type Mark = u: Unit | IsPunctuation(u) || IsSpace(u) witness COMMA
  type Digits = s: seq<Digit> | s != [] witness [48]

  // ---- numbers --------------------------------------------------------------------------

  /** int: no leading zero unless it is the only digit. */
  type Integral = s: Digits | s[0] == 48 ==> |s| == 1 witness [48]
  type ExponentMark = u: Unit | IsExponentMark(u) witness 101
  type Sign = u: Unit | u == PLUS || u == MINUS witness PLUS

  datatype Exponent = Exponent(mark: ExponentMark, sign: Option<Sign>, power: Digits)

  /** number = [ minus ] int [ frac ] [ exp ] */
  datatype Number = Number(negative: bool, digits: Integral, fraction: Option<Digits>, exponent: Option<Exponent>)

  function SpellFraction(f: Option<Digits>): Text {
    match f
    case None => []
    case Some(digits) => [DOT] + digits
  }

  function SpellSign(s: Option<Sign>): Text {
    match s
    case None => []
    case Some(sign) => [sign]
  }

  function SpellExponent(e: Option<Exponent>): Text {
    match e
    case None => []
    case Some(Exponent(mark, sign, power)) => [mark] + (SpellSign(sign) + power)
  }

  /** The digits, fraction and exponent: what follows the minus sign. */
  function SpellMagnitude(n: Number): (s: Text)
    ensures s != [] && IsDigit(s[0])
  {
    n.digits + (SpellFraction(n.fraction) + SpellExponent(n.exponent))
  }

  function SpellNumber(n: Number): Text {
    if n.negative then [MINUS] + SpellMagnitude(n) else SpellMagnitude(n)
  }

  predicate IsInteger(n: Number) {
    n.fraction.None? && n.exponent.None?
  }

  predicate IsHexDigit(u: Unit) {
    IsDigit(u) || 97 <= u <= 102 || 65 <= u <= 70
  }

  type HexDigit = u: Unit | IsHexDigit(u) witness 48

  function HexValue(u: HexDigit): (v: int)
    ensures 0 <= v < 16
    ensures IsDigit(u) ==> v == u as int - 48
  {
    var n: int := u;
    assert IsHexDigit(u);
    if n <= 57 then n - 48 else if n >= 97 then n - 87 else n - 55
  }

  /** The value of a string of decimal digits. */
  function DigitsValue(s: seq<Digit>): (n: int)
    ensures n >= 0
  {
    if s == [] then 0 else 10 * DigitsValue(s[..|s| - 1]) + HexValue(s[|s| - 1])
  }

  /** The value of a number without fraction and exponent. */
  function IntegerValue(n: Number): int {
    if n.negative then -DigitsValue(n.digits) else DigitsValue(n.digits)
  }

  // ---- strings --------------------------------------------------------------------------

  type EscapeLetter = u: Unit | u in {34, 92, 47, 98, 102, 110, 114, 116} witness 34
  type Unescaped = u: Unit | u != QUOTE && u != BACKSLASH && u >= 0x20 witness 32

  /** char = unescaped / escape letter / escape u 4HEXDIG */
  datatype Char = Plain(unit: Unescaped) | Escape(letter: EscapeLetter) | Hex(a: HexDigit, b: HexDigit, c: HexDigit, d: HexDigit)

  function EscapeValue(letter: EscapeLetter): Unit {
    if letter == 98 then 8
    else if letter == 102 then 12
    else if letter == 110 then 10
    else if letter == 114 then 13
    else if letter == 116 then 9
    else letter
  }

  function CharValue(c: Char): Unit {
    match c
    case Plain(u) => u
    case Escape(letter) => EscapeValue(letter)
    case Hex(a, b, c, d) => 4096 * HexValue(a) + 256 * HexValue(b) + 16 * HexValue(c) + HexValue(d)
  }

  function SpellChar(c: Char): Text {
    match c
    case Plain(u) => [u]
    case Escape(letter) => [BACKSLASH, letter]
    case Hex(a, b, c, d) => [BACKSLASH, 117, a, b, c, d]
  }

  function SpellChars(cs: seq<Char>): Text {
    if cs == [] then [] else SpellChar(cs[0]) + SpellChars(cs[1..])
  }

  /** The string a sequence of chars stands for. */
  function CharsValue(cs: seq<Char>): Text {
    if cs == [] then [] else [CharValue(cs[0])] + CharsValue(cs[1..])
  }

  // ---- tokens ---------------------------------------------------------------------------

  datatype Word = WordNull | WordTrue | WordFalse

  function SpellWord(w: Word): Text {
    match w
    case WordNull => [110, 117, 108, 108]
    case WordTrue => [116, 114, 117, 101]
    case WordFalse => [102, 97, 108, 115, 101]
  }

  datatype Token =
    | TString(chars: seq<Char>)
    | TNumber(number: Number)
    | TWord(word: Word)
    | TMark(unit: Mark)      // punctuation or white space

  function SpellToken(t: Token): (s: Text)
    ensures s != []
  {
    match t
    case TString(cs) => [QUOTE] + (SpellChars(cs) + [QUOTE])
    case TNumber(n) => SpellNumber(n)
    case TWord(w) => SpellWord(w)
    case TMark(u) => [u]
  }

  function Spell(ts: seq<Token>): Text {
    if ts == [] then [] else SpellToken(ts[0]) + Spell(ts[1..])
  }

  /** No two tokens touch other than marks, as in every JSON text. */
  predicate Separated(ts: seq<Token>) {
    ts == [] || ((ts[0].TMark? || MarkFirst(ts[1..])) && Separated(ts[1..]))
  }

  predicate MarkFirst(ts: seq<Token>) {
    ts == [] || ts[0].TMark?
  }

  // ---- syntax trees -----------------------------------------------------------------------

  /** An array or object without elements may hold white space. */
  datatype Json =
    | JWord(word: Word)
    | JNumber(number: Number)
    | JString(chars: seq<Char>)
    | JArray(space: seq<Space>, elems: seq<Elem>)
    | JObject(space: seq<Space>, members: seq<Member>)

  /** ws value ws */
  datatype Elem = Elem(before: seq<Space>, value: Json, after: seq<Space>)

  /** ws string ws : ws value ws */
  datatype Member = Member(before: seq<Space>, key: seq<Char>, mid: seq<Space>, elem: Elem)

  function SpaceTokens(s: seq<Space>): seq<Token> {
    if s == [] then [] else [TMark(s[0])] + SpaceTokens(s[1..])
  }

  function Tokens(j: Json): seq<Token> {
    match j
    case JWord(w) => [TWord(w)]
    case JNumber(n) => [TNumber(n)]
    case JString(cs) => [TString(cs)]
    case JArray(space, es) => [TMark(LEFT_BRACKET)] + (SpaceTokens(space) + (ElemsTokens(es) + [TMark(RIGHT_BRACKET)]))
    case JObject(space, ms) => [TMark(LEFT_BRACE)] + (SpaceTokens(space) + (MembersTokens(ms) + [TMark(RIGHT_BRACE)]))
  }

  function ElemTokens(e: Elem): seq<Token> {
    SpaceTokens(e.before) + (Tokens(e.value) + SpaceTokens(e.after))
  }

  function ElemsTokens(es: seq<Elem>): seq<Token> {
    if es == [] then []
    else
      assert es decreases to es[0];
      ElemTokens(es[0]) + (if |es| == 1 then [] else [TMark(COMMA)] + ElemsTokens(es[1..]))
  }

  function MemberTokens(m: Member): seq<Token> {
    SpaceTokens(m.before) + ([TString(m.key)] + (SpaceTokens(m.mid) + ([TMark(COLON)] + ElemTokens(m.elem))))
  }

  function MembersTokens(ms: seq<Member>): seq<Token> {
    if ms == [] then []
    else
      assert ms decreases to ms[0];
      MemberTokens(ms[0]) + (if |ms| == 1 then [] else [TMark(COMMA)] + MembersTokens(ms[1..]))
  }

  /** The text of a document, ws value ws. */
  function DocumentText(doc: Elem): Text {
    Spell(ElemTokens(doc))
  }

  // ---- texts ------------------------------------------------------------------------------

  lemma {:induction false} HeadFirst(s: Text, rest: Text)
    requires s != []
    ensures s + rest == [s[0]] + (s[1..] + rest)
  {
  }

  lemma {:induction false} Associate(a: Text, b: Text, c: Text)
    ensures a + b + c == a + (b + c)
  {
  }

  lemma {:induction false} Regroup(a: Text, b: Text, c: Text, d: Text)
    ensures a + (b + c) + d == a + (b + (c + d))
  {
  }

  lemma {:induction false} Parts(a: Text, b: Text)
    ensures (a + b)[..|a|] == a && (a + b)[|a|..] == b
  {
  }
}
