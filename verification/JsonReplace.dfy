/** Replacing quoted placeholders in a JSON text: which occurrences a plain text search finds. */
module JsonReplace {
  import opened Wrappers
  import opened JsonText
  import opened JsonParse
  import opened JsonMap

  /** String.replaceAll: left to right, without overlaps. */
  function ReplaceAll(s: Text, from: Text, to: Text): Text
    requires from != []
  {
    if s == [] then []
    else if from <= s then to + ReplaceAll(s[|from|..], from, to)
    else [s[0]] + ReplaceAll(s[1..], from, to)
  }

  /** A text that can only occur in the chars of a string. */
  type Placeholder = s: seq<Unescaped> | s != [] && s[0] == 48 witness [48]

  function Quoted(h: Placeholder): (s: Text)
    ensures s != []
  {
    [QUOTE] + (h + [QUOTE])
  }

  /** The spelling ends in an escaped quotation mark and the placeholder. */
  predicate EndsQuoted(cs: seq<Char>, h: Placeholder) {
    cs != [] && ((cs[0] == Escape(QUOTE) && SpellChars(cs[1..]) == h) || EndsQuoted(cs[1..], h))
  }

  function ReplaceToken(t: Token, h: Placeholder, n: Number): Token {
    if t.TString? && SpellChars(t.chars) == h then TNumber(n) else t
  }

  function Replacer(h: Placeholder, n: Number): Token -> Token {
    (t: Token) => ReplaceToken(t, h, n)
  }

  predicate Untangled(ts: seq<Token>, h: Placeholder) {
    ts == [] || ((ts[0].TString? ==> !EndsQuoted(ts[0].chars, h)) && Untangled(ts[1..], h))
  }

  // ---- searching ------------------------------------------------------------------------------

  lemma {:induction false} SkipOne(u: Unit, rest: Text, from: Text, to: Text)
    requires from != [] && !(from <= [u] + rest)
    ensures ReplaceAll([u] + rest, from, to) == [u] + ReplaceAll(rest, from, to)
  {
    assert ([u] + rest)[1..] == rest;
  }

  lemma {:induction false} SkipUnquoted(u: Unit, rest: Text, h: Placeholder, to: Text)
    requires u != QUOTE
    ensures ReplaceAll([u] + rest, Quoted(h), to) == [u] + ReplaceAll(rest, Quoted(h), to)
  {
    if Quoted(h) <= [u] + rest {
      assert Quoted(h)[0] == ([u] + rest)[0];
    }
    SkipOne(u, rest, Quoted(h), to);
  }

  predicate NoQuote(s: Text) {
    s == [] || (s[0] != QUOTE && NoQuote(s[1..]))
  }

  lemma {:induction false} NoneQuote(s: Text)
    requires forall i | 0 <= i < |s| :: s[i] != QUOTE
    ensures NoQuote(s)
  {
    if s != [] {
      NoneQuote(s[1..]);
    }
  }

  lemma {:induction false} SkipText(s: Text, rest: Text, h: Placeholder, to: Text)
    requires NoQuote(s)
    ensures ReplaceAll(s + rest, Quoted(h), to) == s + ReplaceAll(rest, Quoted(h), to)
  {
    if s == [] {
      assert s + rest == rest;
    } else {
      SkipText(s[1..], rest, h, to);
      SkipUnquoted(s[0], s[1..] + rest, h, to);
      HeadFirst(s, rest);
      HeadFirst(s, ReplaceAll(rest, Quoted(h), to));
    }
  }

  lemma {:induction false} PrefixHead(u: Unit, a: Text, v: Unit, b: Text)
    ensures [u] + a <= [v] + b ==> u == v && a <= b
  {
    if [u] + a <= [v] + b {
      assert ([u] + a)[0] == ([v] + b)[0];
      Parts([u], a);
      Parts([v], b);
    }
  }

  /** Plain text up to a quotation mark covers all chars of the string. */
  lemma {:induction false} PrefixIsWhole(cs: seq<Char>, h: seq<Unescaped>, rest: Text)
    requires h + [QUOTE] <= SpellChars(cs) + ([QUOTE] + rest)
    ensures SpellChars(cs) == h
  {
    var s := h + [QUOTE];
    if cs == [] {
      assert SpellChars(cs) + ([QUOTE] + rest) == [QUOTE] + rest;
      if h != [] {
        HeadFirst(h, [QUOTE]);
        PrefixHead(h[0], h[1..] + [QUOTE], QUOTE, rest);
      }
    } else {
      var spelt := SpellChar(cs[0]);
      var more := SpellChars(cs[1..]) + ([QUOTE] + rest);
      Associate(spelt, SpellChars(cs[1..]), [QUOTE] + rest);
      HeadFirst(spelt, more);
      if h == [] {
        assert h + [QUOTE] == [QUOTE] + [];
        PrefixHead(QUOTE, [], spelt[0], spelt[1..] + more);
      } else {
        HeadFirst(h, [QUOTE]);
        PrefixHead(h[0], h[1..] + [QUOTE], spelt[0], spelt[1..] + more);
        assert spelt == [h[0]];
        assert spelt[1..] + more == more;
        PrefixIsWhole(cs[1..], h[1..], rest);
      }
    }
  }

  lemma {:induction false} Found(h: Placeholder, rest: Text, to: Text)
    ensures ReplaceAll(Quoted(h) + rest, Quoted(h), to) == to + ReplaceAll(rest, Quoted(h), to)
  {
    Parts(Quoted(h), rest);
  }

  /** A quotation mark at which the placeholder does not follow up to another one is kept. */
  lemma {:induction false} SkipQuote(h: Placeholder, rest: Text, to: Text)
    requires !(h + [QUOTE] <= rest)
    ensures ReplaceAll([QUOTE] + rest, Quoted(h), to) == [QUOTE] + ReplaceAll(rest, Quoted(h), to)
  {
    PrefixHead(QUOTE, h + [QUOTE], QUOTE, rest);
    SkipOne(QUOTE, rest, Quoted(h), to);
  }

  lemma {:induction false} SkipClosing(h: Placeholder, rest: Text, to: Text)
    requires Breaks(rest)
    ensures ReplaceAll([QUOTE] + rest, Quoted(h), to) == [QUOTE] + ReplaceAll(rest, Quoted(h), to)
  {
    if rest != [] {
      assert (h + [QUOTE])[0] == 48 && rest[0] != 48;
    }
    SkipQuote(h, rest, to);
  }

  lemma {:induction false} SkipChar(c: Char, rest: Text, h: Placeholder, to: Text)
    requires c == Escape(QUOTE) ==> !(h + [QUOTE] <= rest)
    ensures ReplaceAll(SpellChar(c) + rest, Quoted(h), to) == SpellChar(c) + ReplaceAll(rest, Quoted(h), to)
  {
    if c == Escape(QUOTE) {
      SkipUnquoted(BACKSLASH, [QUOTE] + rest, h, to);
      SkipQuote(h, rest, to);
      Associate([BACKSLASH], [QUOTE], rest);
      Associate([BACKSLASH], [QUOTE], ReplaceAll(rest, Quoted(h), to));
      assert SpellChar(c) == [BACKSLASH] + [QUOTE];
    } else {
      CharUnquoted(c);
      SkipText(SpellChar(c), rest, h, to);
    }
  }

  lemma {:induction false} CharUnquoted(c: Char)
    requires c != Escape(QUOTE)
    ensures NoQuote(SpellChar(c))
  {
    NoneQuote(SpellChar(c));
  }

  lemma {:induction false} SkipChars(cs: seq<Char>, rest: Text, h: Placeholder, to: Text)
    requires !EndsQuoted(cs, h) && Breaks(rest)
    ensures ReplaceAll(SpellChars(cs) + ([QUOTE] + rest), Quoted(h), to)
         == SpellChars(cs) + ([QUOTE] + ReplaceAll(rest, Quoted(h), to))
  {
    var close := [QUOTE] + rest;
    var closed := [QUOTE] + ReplaceAll(rest, Quoted(h), to);
    if cs == [] {
      assert [] + close == close && [] + closed == closed;
      SkipClosing(h, rest, to);
    } else {
      var more := SpellChars(cs[1..]) + close;
      Associate(SpellChar(cs[0]), SpellChars(cs[1..]), close);
      Associate(SpellChar(cs[0]), SpellChars(cs[1..]), closed);
      if cs[0] == Escape(QUOTE) && h + [QUOTE] <= more {
        PrefixIsWhole(cs[1..], h, rest);
        assert false;
      }
      SkipChar(cs[0], more, h, to);
      SkipChars(cs[1..], rest, h, to);
    }
  }

  lemma {:induction false} ReplaceString(cs: seq<Char>, rest: Text, h: Placeholder, n: Number)
    requires !EndsQuoted(cs, h) && Breaks(rest)
    ensures ReplaceAll(SpellToken(TString(cs)) + rest, Quoted(h), SpellNumber(n))
         == SpellToken(ReplaceToken(TString(cs), h, n)) + ReplaceAll(rest, Quoted(h), SpellNumber(n))
  {
    var body := SpellChars(cs);
    var to := SpellNumber(n);
    if body == h {
      Found(h, rest, to);
    } else {
      Regroup([QUOTE], body, [QUOTE], rest);
      Regroup([QUOTE], body, [QUOTE], ReplaceAll(rest, Quoted(h), to));
      var inner := body + ([QUOTE] + rest);
      if h + [QUOTE] <= inner {
        PrefixIsWhole(cs, h, rest);
        assert false;
      }
      SkipQuote(h, inner, to);
      SkipChars(cs, rest, h, to);
    }
  }

  lemma {:induction false} NoQuoteJoin(a: Text, b: Text)
    requires NoQuote(a) && NoQuote(b)
    ensures NoQuote(a + b)
  {
    if a == [] {
      assert a + b == b;
    } else {
      HeadFirst(a, b);
      Parts([a[0]], a[1..] + b);
      NoQuoteJoin(a[1..], b);
    }
  }

  lemma {:induction false} DigitsUnquoted(s: seq<Digit>)
    ensures NoQuote(s)
  {
    NoneQuote(s);
  }

  lemma {:induction false} OneUnquoted(u: Unit)
    requires u != QUOTE
    ensures NoQuote([u])
  {
    assert [u][1..] == [];
  }

  lemma {:induction false} ExponentUnquoted(e: Exponent)
    ensures NoQuote(SpellExponent(Some(e)))
  {
    OneUnquoted(e.mark);
    DigitsUnquoted(e.power);
    if e.sign.Some? {
      OneUnquoted(e.sign.value);
    }
    NoQuoteJoin(SpellSign(e.sign), e.power);
    NoQuoteJoin([e.mark], SpellSign(e.sign) + e.power);
  }

  lemma {:induction false} NumberUnquoted(n: Number)
    ensures NoQuote(SpellNumber(n))
  {
    DigitsUnquoted(n.digits);
    OneUnquoted(DOT);
    OneUnquoted(MINUS);
    if n.fraction.Some? {
      DigitsUnquoted(n.fraction.value);
      NoQuoteJoin([DOT], n.fraction.value);
    }
    if n.exponent.Some? {
      ExponentUnquoted(n.exponent.value);
    }
    NoQuoteJoin(SpellFraction(n.fraction), SpellExponent(n.exponent));
    NoQuoteJoin(n.digits, SpellFraction(n.fraction) + SpellExponent(n.exponent));
    NoQuoteJoin([MINUS], SpellMagnitude(n));
  }

  lemma {:induction false} WordUnquoted(w: Word)
    ensures NoQuote(SpellWord(w))
  {
    NoneQuote(SpellWord(w));
  }

  lemma {:induction false} ReplaceOne(t: Token, rest: Text, h: Placeholder, n: Number)
    requires t.TMark? || Breaks(rest)
    requires t.TString? ==> !EndsQuoted(t.chars, h)
    ensures ReplaceAll(SpellToken(t) + rest, Quoted(h), SpellNumber(n))
         == SpellToken(ReplaceToken(t, h, n)) + ReplaceAll(rest, Quoted(h), SpellNumber(n))
  {
    match t
    case TMark(u) => SkipUnquoted(u, rest, h, SpellNumber(n));
    case TString(cs) => ReplaceString(cs, rest, h, n);
    case TNumber(m) =>
      NumberUnquoted(m);
      SkipText(SpellNumber(m), rest, h, SpellNumber(n));
    case TWord(w) =>
      WordUnquoted(w);
      SkipText(SpellWord(w), rest, h, SpellNumber(n));
  }

  /** In the text of tokens, a text search replaces exactly the string tokens spelt as the
      placeholder, unless some string ends in a quotation mark and the placeholder. */
  lemma {:induction false} ReplaceTokens(ts: seq<Token>, h: Placeholder, n: Number)
    requires Separated(ts) && Untangled(ts, h)
    ensures ReplaceAll(Spell(ts), Quoted(h), SpellNumber(n)) == Spell(MapTokens(ts, Replacer(h, n)))
  {
    if ts != [] {
      if !ts[0].TMark? {
        MarkBreaks(ts[1..]);
      }
      ReplaceOne(ts[0], Spell(ts[1..]), h, n);
      ReplaceTokens(ts[1..], h, n);
      assert MapTokens(ts, Replacer(h, n))[1..] == MapTokens(ts[1..], Replacer(h, n));
    }
  }

  // ---- trees none of whose strings gets in the way ----------------------------------------------

  predicate TreeUntangled(j: Json, h: Placeholder) {
    match j
    case JString(cs) => !EndsQuoted(cs, h)
    case JArray(_, es) => ElemsUntangled(es, h)
    case JObject(_, ms) => MembersUntangled(ms, h)
    case _ => true
  }

  predicate ElemsUntangled(es: seq<Elem>, h: Placeholder) {
    es == [] || (assert es decreases to es[0]; TreeUntangled(es[0].value, h) && ElemsUntangled(es[1..], h))
  }

  predicate MembersUntangled(ms: seq<Member>, h: Placeholder) {
    ms == [] ||
    (assert ms decreases to ms[0];
     !EndsQuoted(ms[0].key, h) && TreeUntangled(ms[0].elem.value, h) && MembersUntangled(ms[1..], h))
  }

  lemma {:induction false} UntangledJoin(a: seq<Token>, b: seq<Token>, h: Placeholder)
    ensures Untangled(a + b, h) <==> Untangled(a, h) && Untangled(b, h)
  {
    if a == [] {
      assert a + b == b;
    } else {
      assert (a + b)[1..] == a[1..] + b;
      UntangledJoin(a[1..], b, h);
    }
  }

  lemma {:induction false} UntangledCons(t: Token, ts: seq<Token>, h: Placeholder)
    ensures Untangled([t] + ts, h) <==> (t.TString? ==> !EndsQuoted(t.chars, h)) && Untangled(ts, h)
  {
    assert ([t] + ts)[1..] == ts;
  }

  lemma {:induction false} UntangledOne(t: Token, h: Placeholder)
    ensures Untangled([t], h) <==> (t.TString? ==> !EndsQuoted(t.chars, h))
  {
    UntangledCons(t, [], h);
    assert [t] + [] == [t];
  }

  lemma {:induction false} UntangledSpace(s: seq<Space>, ts: seq<Token>, h: Placeholder)
    ensures Untangled(SpaceTokens(s) + ts, h) <==> Untangled(ts, h)
  {
    if s == [] {
      assert SpaceTokens(s) + ts == ts;
    } else {
      UntangledSpace(s[1..], ts, h);
      UntangledCons(TMark(s[0]), SpaceTokens(s[1..]) + ts, h);
      assert SpaceTokens(s) + ts == [TMark(s[0])] + (SpaceTokens(s[1..]) + ts);
    }
  }

  lemma {:induction false} UntangledBrackets(open: Mark, space: seq<Space>, inner: seq<Token>, close: Mark, h: Placeholder)
    ensures Untangled([TMark(open)] + (SpaceTokens(space) + (inner + [TMark(close)])), h) <==> Untangled(inner, h)
  {
    UntangledOne(TMark(close), h);
    UntangledJoin(inner, [TMark(close)], h);
    UntangledSpace(space, inner + [TMark(close)], h);
    UntangledCons(TMark(open), SpaceTokens(space) + (inner + [TMark(close)]), h);
  }

  /** The tokens of a tree are untangled exactly if its strings and names are. */
  lemma {:induction false} TokensUntangled(j: Json, h: Placeholder)
    ensures Untangled(Tokens(j), h) <==> TreeUntangled(j, h)
  {
    match j
    case JWord(w) => UntangledOne(TWord(w), h);
    case JNumber(n) => UntangledOne(TNumber(n), h);
    case JString(cs) => UntangledOne(TString(cs), h);
    case JArray(space, es) =>
      ElemsTokensUntangled(es, h);
      UntangledBrackets(LEFT_BRACKET, space, ElemsTokens(es), RIGHT_BRACKET, h);
    case JObject(space, ms) =>
      MembersTokensUntangled(ms, h);
      UntangledBrackets(LEFT_BRACE, space, MembersTokens(ms), RIGHT_BRACE, h);
  }

  lemma {:induction false} ElemUntangled(e: Elem, h: Placeholder)
    ensures Untangled(ElemTokens(e), h) <==> TreeUntangled(e.value, h)
  {
    TokensUntangled(e.value, h);
    UntangledSpace(e.after, [], h);
    assert SpaceTokens(e.after) + [] == SpaceTokens(e.after);
    UntangledJoin(Tokens(e.value), SpaceTokens(e.after), h);
    UntangledSpace(e.before, Tokens(e.value) + SpaceTokens(e.after), h);
  }

  lemma {:induction false} ElemsTokensUntangled(es: seq<Elem>, h: Placeholder)
    ensures Untangled(ElemsTokens(es), h) <==> ElemsUntangled(es, h)
  {
    if es != [] {
      assert es decreases to es[0];
      ElemUntangled(es[0], h);
      if |es| == 1 {
        UntangledJoin(ElemTokens(es[0]), [], h);
      } else {
        ElemsTokensUntangled(es[1..], h);
        UntangledCons(TMark(COMMA), ElemsTokens(es[1..]), h);
        UntangledJoin(ElemTokens(es[0]), [TMark(COMMA)] + ElemsTokens(es[1..]), h);
      }
    }
  }

  lemma {:induction false} MemberUntangled(m: Member, h: Placeholder)
    ensures Untangled(MemberTokens(m), h) <==> !EndsQuoted(m.key, h) && TreeUntangled(m.elem.value, h)
  {
    ElemUntangled(m.elem, h);
    var value := [TMark(COLON)] + ElemTokens(m.elem);
    UntangledCons(TMark(COLON), ElemTokens(m.elem), h);
    UntangledSpace(m.mid, value, h);
    UntangledCons(TString(m.key), SpaceTokens(m.mid) + value, h);
    UntangledSpace(m.before, [TString(m.key)] + (SpaceTokens(m.mid) + value), h);
  }

  lemma {:induction false} MembersTokensUntangled(ms: seq<Member>, h: Placeholder)
    ensures Untangled(MembersTokens(ms), h) <==> MembersUntangled(ms, h)
  {
    if ms != [] {
      assert ms decreases to ms[0];
      MemberUntangled(ms[0], h);
      if |ms| == 1 {
        UntangledJoin(MemberTokens(ms[0]), [], h);
      } else {
        MembersTokensUntangled(ms[1..], h);
        UntangledCons(TMark(COMMA), MembersTokens(ms[1..]), h);
        UntangledJoin(MemberTokens(ms[0]), [TMark(COMMA)] + MembersTokens(ms[1..]), h);
      }
    }
  }
}
