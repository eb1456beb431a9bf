/** What the scanner does to a JSON text: its integers outside the safe range, and nothing
    else, become marked strings; and what reading the text then means. */
module JsonExact {
  import opened Wrappers
  import opened JsonText
  import opened JsonParse
  import opened JsonScanner
  import opened JsonMap

  /** An integer literal outside the safe range. */
  predicate Large(n: Number) {
    IsInteger(n) && !Safe(IntegerValue(n))
  }

  function PlainChars(s: seq<Unescaped>): seq<Char> {
    if s == [] then [] else [Plain(s[0])] + PlainChars(s[1..])
  }

  function IntegerText(n: Number): seq<Unescaped> {
    (if n.negative then [MINUS] else []) + n.digits
  }

  function MarkedChars(n: Number): seq<Char> {
    PlainChars(MARKER + IntegerText(n))
  }

  function RewriteToken(t: Token): Token {
    if t.TNumber? && Large(t.number) then TString(MarkedChars(t.number)) else t
  }

  // ---- integers of fewer than 15 digits are safe ----------------------------------------

  function Pow10(n: nat): (p: int)
    ensures p > 0
  {
    if n == 0 then 1 else 10 * Pow10(n - 1)
  }

  lemma {:induction false} PowMonotone(m: nat, n: nat)
    requires m <= n
    ensures Pow10(m) <= Pow10(n)
  {
    if m < n {
      PowMonotone(m, n - 1);
    }
  }

  lemma {:induction false} DigitsBelow(s: seq<Digit>)
    ensures DigitsValue(s) < Pow10(|s|)
  {
    if s != [] {
      DigitsBelow(s[..|s| - 1]);
      assert HexValue(s[|s| - 1]) <= 9;
    }
  }

  lemma {:induction false} PowFifteen()
    ensures Pow10(14) < MAX_SAFE
  {
    assert Pow10(7) == 10 * (10 * (10 * (10 * (10 * (10 * (10 * Pow10(0)))))));
    assert Pow10(14) == 10 * (10 * (10 * (10 * (10 * (10 * (10 * Pow10(7)))))));
  }

  /** The digit count that the scanner asks for first never hides an unsafe integer. */
  lemma {:induction false} CutoffIsSafe(negative: bool, digits: seq<Digit>)
    requires |digits| < 15
    ensures Safe(SignedValue(negative, digits))
  {
    DigitsBelow(digits);
    PowMonotone(|digits|, 14);
    PowFifteen();
  }

  // ---- the scanner on one token -----------------------------------------------------------

  lemma {:induction false} FractionSpan(f: Option<Digits>, tail: Text)
    requires tail == [] || (!IsDigit(tail[0]) && tail[0] != DOT)
    ensures FractionLength(SpellFraction(f) + tail) == |SpellFraction(f)|
  {
    if f.Some? {
      assert (SpellFraction(f) + tail)[1..] == f.value + tail;
      DigitsReadBack(f.value, tail);
    } else {
      assert SpellFraction(f) + tail == tail;
    }
  }

  lemma {:induction false} ExponentSpan(e: Option<Exponent>, rest: Text)
    requires Breaks(rest)
    ensures ExponentLength(SpellExponent(e) + rest) == |SpellExponent(e)|
  {
    if e.Some? {
      PowerSpan(e.value, rest);
    } else {
      assert SpellExponent(e) + rest == rest;
    }
  }

  lemma {:induction false} SignSpan(sign: Option<Sign>, tail: Text)
    requires tail != [] && IsDigit(tail[0])
    ensures SignLength(SpellSign(sign) + tail) == |SpellSign(sign)|
  {
  }

  lemma {:induction false} PowerSpan(e: Exponent, rest: Text)
    requires Breaks(rest)
    ensures ExponentLength(SpellExponent(Some(e)) + rest) == |SpellExponent(Some(e))|
  {
    var s := SpellExponent(Some(e)) + rest;
    var sign := SpellSign(e.sign);
    var tail := e.power + rest;
    assert tail[0] == e.power[0];
    assert s[0] == e.mark && s[1..] == sign + tail;
    SignSpan(e.sign, tail);
    assert s[1 + |sign|..] == tail;
    DigitsReadBack(e.power, rest);
  }

  lemma {:induction false} ExponentOpens(e: Option<Exponent>, rest: Text)
    requires Breaks(rest)
    ensures var tail := SpellExponent(e) + rest; tail == [] || (!IsDigit(tail[0]) && tail[0] != DOT)
  {
  }

  lemma {:induction false} SpanParts(digits: Digits, fraction: Text, tail: Text)
    requires DigitRun(digits + (fraction + tail)) == digits && FractionLength(fraction + tail) == |fraction|
    ensures NumberLength(digits + (fraction + tail)) == |digits| + |fraction| + ExponentLength(tail)
  {
    var s := digits + (fraction + tail);
    Parts(digits, fraction + tail);
    Associate(digits, fraction, tail);
    Parts(digits + fraction, tail);
  }

  /** The scanner finds the digits and the end of a number where they are. */
  lemma {:induction false} NumberSpan(n: Number, rest: Text)
    requires Breaks(rest)
    ensures DigitRun(SpellMagnitude(n) + rest) == n.digits
    ensures NumberLength(SpellMagnitude(n) + rest) == |SpellMagnitude(n)|
  {
    var fraction := SpellFraction(n.fraction);
    var exponent := SpellExponent(n.exponent);
    var tail := exponent + rest;
    ExponentOpens(n.exponent, rest);
    Regroup(n.digits, fraction, exponent, rest);
    FractionSpan(n.fraction, tail);
    FractionOpens(n.fraction, tail);
    DigitsReadBack(n.digits, fraction + tail);
    ExponentSpan(n.exponent, rest);
    SpanParts(n.digits, fraction, tail);
  }

  lemma {:induction false} FractionOpens(f: Option<Digits>, tail: Text)
    requires tail == [] || !IsDigit(tail[0])
    ensures var s := SpellFraction(f) + tail; s == [] || !IsDigit(s[0])
  {
  }

  lemma {:induction false} IntegerSpelling(n: Number)
    ensures IsInteger(n) <==> |SpellMagnitude(n)| == |n.digits|
    ensures IsInteger(n) ==> SpellNumber(n) == IntegerText(n)
  {
  }

  lemma {:induction false} SpellPlainChars(s: seq<Unescaped>)
    ensures SpellChars(PlainChars(s)) == s && CharsValue(PlainChars(s)) == s
  {
    if s != [] {
      SpellPlainChars(s[1..]);
      assert PlainChars(s)[1..] == PlainChars(s[1..]);
    }
  }

  /** What the scanner puts in the place of a number, by its parts. */
  lemma {:induction false} PlacedSpan(n: Number, rest: Text)
    requires Breaks(rest)
    ensures Placed(n.negative, SpellMagnitude(n) + rest)
         == if |SpellMagnitude(n)| == |n.digits| && |n.digits| >= 15 && !Safe(SignedValue(n.negative, n.digits))
            then [QUOTE] + (MARKER + Signed(n.negative, SpellMagnitude(n)) + [QUOTE])
            else Signed(n.negative, SpellMagnitude(n))
  {
    NumberSpan(n, rest);
    Parts(SpellMagnitude(n), rest);
  }

  lemma {:induction false} LargeIsLong(n: Number)
    ensures Large(n) <==>
      |SpellMagnitude(n)| == |n.digits| && |n.digits| >= 15 && !Safe(SignedValue(n.negative, n.digits))
  {
    IntegerSpelling(n);
    if |n.digits| < 15 {
      CutoffIsSafe(n.negative, n.digits);
    }
  }

  lemma {:induction false} PlacedNumber(n: Number, rest: Text)
    requires Breaks(rest)
    ensures Placed(n.negative, SpellMagnitude(n) + rest) == SpellToken(RewriteToken(TNumber(n)))
  {
    PlacedSpan(n, rest);
    LargeIsLong(n);
    if Large(n) {
      IntegerSpelling(n);
      SpellPlainChars(MARKER + IntegerText(n));
    }
  }

  lemma {:induction false} OutsideAtNumber(n: Number, rest: Text)
    requires Breaks(rest)
    ensures Outside(SpellNumber(n) + rest) == SpellToken(RewriteToken(TNumber(n))) + Outside(rest)
  {
    var magnitude := SpellMagnitude(n);
    NumberSpan(n, rest);
    PlacedNumber(n, rest);
    Parts(magnitude, rest);
    assert (magnitude + rest)[0] == magnitude[0];
    OutsideNumber(n.negative, magnitude + rest);
    SignedJoin(n, rest);
  }

  lemma {:induction false} SignedJoin(n: Number, rest: Text)
    ensures SpellNumber(n) + rest == Signed(n.negative, SpellMagnitude(n) + rest)
  {
    Regroup([], [MINUS], SpellMagnitude(n), rest);
  }

  lemma {:induction false} InsideChar(c: Char, rest: Text)
    ensures Inside(SpellChar(c) + rest) == SpellChar(c) + Inside(rest)
  {
    var s := SpellChar(c) + rest;
    match c
    case Plain(_) => assert s[1..] == rest;
    case Escape(_) => assert s[2..] == rest;
    case Hex(a, b, d, e) =>
      assert s[2..] == [a] + ([b] + ([d] + ([e] + rest)));
      InsideCopies(a, [b] + ([d] + ([e] + rest)));
      InsideCopies(b, [d] + ([e] + rest));
      InsideCopies(d, [e] + rest);
      InsideCopies(e, rest);
  }

  lemma {:induction false} InsideCopies(u: HexDigit, rest: Text)
    ensures Inside([u] + rest) == [u] + Inside(rest)
  {
    assert IsHexDigit(u);
    assert ([u] + rest)[1..] == rest;
  }

  lemma {:induction false} InsideClosing(rest: Text)
    ensures Inside([QUOTE] + rest) == [QUOTE] + Outside(rest)
  {
    Parts([QUOTE], rest);
    InsideQuote([QUOTE] + rest);
  }

  lemma {:induction false} SpellCharsSplit(cs: seq<Char>, close: Text)
    requires cs != []
    ensures SpellChars(cs) + close == SpellChar(cs[0]) + (SpellChars(cs[1..]) + close)
  {
  }

  /** The contents of a string, escapes included, are copied. */
  lemma {:induction false} InsideString(cs: seq<Char>, rest: Text)
    ensures Inside(SpellChars(cs) + ([QUOTE] + rest)) == SpellChars(cs) + ([QUOTE] + Outside(rest))
  {
    var close := [QUOTE] + rest;
    if cs == [] {
      assert [] + close == close;
      InsideClosing(rest);
    } else {
      SpellCharsSplit(cs, close);
      SpellCharsSplit(cs, [QUOTE] + Outside(rest));
      InsideChar(cs[0], SpellChars(cs[1..]) + close);
      InsideString(cs[1..], rest);
    }
  }

  lemma {:induction false} OutsideAtString(cs: seq<Char>, rest: Text)
    ensures Outside(SpellToken(TString(cs)) + rest) == SpellToken(TString(cs)) + Outside(rest)
  {
    var body := SpellChars(cs);
    Regroup([QUOTE], body, [QUOTE], rest);
    Regroup([QUOTE], body, [QUOTE], Outside(rest));
    OutsideOpening(body + ([QUOTE] + rest));
    InsideString(cs, rest);
  }

  lemma {:induction false} OutsideOpening(s: Text)
    ensures Outside([QUOTE] + s) == [QUOTE] + Inside(s)
  {
    Parts([QUOTE], s);
    OutsideQuote([QUOTE] + s);
  }

  predicate Letters(s: Text) {
    forall i | 0 <= i < |s| :: 97 <= s[i] <= 122
  }

  lemma {:induction false} OutsideLetter(u: Unit, rest: Text)
    requires 97 <= u <= 122
    ensures Outside([u] + rest) == [u] + Outside(rest)
  {
    Parts([u], rest);
    OutsideCopies([u] + rest);
  }

  lemma {:induction false} OutsideLetters(s: Text, rest: Text)
    requires Letters(s)
    ensures Outside(s + rest) == s + Outside(rest)
  {
    if s == [] {
      assert s + rest == rest;
    } else {
      OutsideLetters(s[1..], rest);
      OutsideLetter(s[0], s[1..] + rest);
      HeadFirst(s, rest);
      HeadFirst(s, Outside(rest));
    }
  }

  lemma {:induction false} OutsideToken(t: Token, rest: Text)
    requires t.TMark? || Breaks(rest)
    ensures Outside(SpellToken(t) + rest) == SpellToken(RewriteToken(t)) + Outside(rest)
  {
    match t
    case TMark(u) =>
      assert ([u] + rest)[1..] == rest;
      OutsideCopies([u] + rest);
    case TString(cs) => OutsideAtString(cs, rest);
    case TNumber(n) => OutsideAtNumber(n, rest);
    case TWord(w) => OutsideLetters(SpellWord(w), rest);
  }

  /** On the text of tokens, the scanner rewrites token by token. */
  lemma {:induction false} OutsideTokens(ts: seq<Token>)
    requires Separated(ts)
    ensures Outside(Spell(ts)) == Spell(MapTokens(ts, RewriteToken))
  {
    if ts != [] {
      if !ts[0].TMark? {
        MarkBreaks(ts[1..]);
      }
      OutsideToken(ts[0], Spell(ts[1..]));
      OutsideTokens(ts[1..]);
      assert MapTokens(ts, RewriteToken)[1..] == MapTokens(ts[1..], RewriteToken);
    }
  }

  // ---- the scanner on a document ------------------------------------------------------------

  lemma {:induction false} RewriteKeepsNames(j: Json)
    ensures NamesKept(j, RewriteToken)
  {
    match j
    case JArray(_, es) => RewriteKeepsElemsNames(es);
    case JObject(_, ms) => RewriteKeepsMembersNames(ms);
    case _ =>
  }

  lemma {:induction false} RewriteKeepsElemsNames(es: seq<Elem>)
    ensures ElemsNamesKept(es, RewriteToken)
  {
    if es != [] {
      assert es decreases to es[0];
      RewriteKeepsNames(es[0].value);
      RewriteKeepsElemsNames(es[1..]);
    }
  }

  lemma {:induction false} RewriteKeepsMembersNames(ms: seq<Member>)
    ensures MembersNamesKept(ms, RewriteToken)
  {
    if ms != [] {
      assert ms decreases to ms[0];
      RewriteKeepsNames(ms[0].elem.value);
      RewriteKeepsMembersNames(ms[1..]);
    }
  }

  /** The text of a document becomes the text of the document whose large integers, and
      nothing else, are marked strings; so it is again a JSON text. */
  lemma {:induction false} ScannedDocument(doc: Elem)
    ensures Outside(DocumentText(doc)) == DocumentText(MapElem(doc, RewriteToken))
  {
    DocumentSeparated(doc);
    OutsideTokens(ElemTokens(doc));
    RewriteKeepsNames(doc.value);
    ElemMaps(doc, RewriteToken);
  }
}
