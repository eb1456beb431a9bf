/** A placeholder found at an escaped quotation mark leaves a string without its end and with
    a backslash before a digit: no later replacement mends it, and the text does not parse. */
module JsonWreck {
  import opened Wrappers
  import opened JsonText
  import opened JsonParse
  import opened JsonMap
  import opened JsonScanner
  import opened JsonExact
  import opened JsonReader
  import opened JsonReplace
  import opened JsonWriter

  /** Whole tokens, then a string that breaks off at a backslash and a digit. */
  datatype Wreck = Wreck(tokens: seq<Token>, chars: seq<Char>, digit: Digit, rest: Text)

  /** The tokens end in a mark, if there are any. */
  predicate Closed(ts: seq<Token>) {
    ts == [] || (if |ts| == 1 then ts[0].TMark? else Closed(ts[1..]))
  }

  predicate Sound(ts: seq<Token>) {
    Separated(ts) && Closed(ts)
  }

  function Broken(cs: seq<Char>, rest: Text): (s: Text)
    ensures s != []
  {
    [QUOTE] + (SpellChars(cs) + ([BACKSLASH] + rest))
  }

  function WreckText(w: Wreck): Text {
    Spell(w.tokens) + Broken(w.chars, [w.digit] + w.rest)
  }

  lemma {:induction false} FirstBreaks(ts: seq<Token>, tail: Text)
    requires Sound(ts) && ts != []
    ensures ts[0].TMark? || Breaks(Spell(ts[1..]) + tail)
  {
    if !ts[0].TMark? {
      assert ts[1..][0].TMark?;
      assert (Spell(ts[1..]) + tail)[0] == SpellToken(ts[1])[0];
    }
  }

  lemma {:induction false} SpellHead(ts: seq<Token>, tail: Text)
    requires ts != []
    ensures Spell(ts) + tail == SpellToken(ts[0]) + (Spell(ts[1..]) + tail)
  {
    Associate(SpellToken(ts[0]), Spell(ts[1..]), tail);
  }

  lemma {:induction false} MapSound(ts: seq<Token>, f: Token -> Token)
    requires Sound(ts) && Tame(f)
    ensures Sound(MapTokens(ts, f))
  {
    if ts != [] {
      MapSound(ts[1..], f);
      assert MapTokens(ts, f)[0] == f(ts[0]) && MapTokens(ts, f)[1..] == MapTokens(ts[1..], f);
      if !ts[0].TMark? {
        assert MapTokens(ts[1..], f)[0] == f(ts[1..][0]);
      }
    }
  }

  // ---- no wreck is read ---------------------------------------------------------------------------

  lemma {:induction false} OutsideThen(ts: seq<Token>, tail: Text)
    requires Sound(ts)
    ensures Outside(Spell(ts) + tail) == Spell(MapTokens(ts, RewriteToken)) + Outside(tail)
  {
    if ts == [] {
      assert [] + tail == tail && [] + Outside(tail) == Outside(tail);
    } else {
      FirstBreaks(ts, tail);
      SpellHead(ts, tail);
      OutsideToken(ts[0], Spell(ts[1..]) + tail);
      OutsideThen(ts[1..], tail);
      MappedHead(ts, Outside(tail));
    }
  }

  lemma {:induction false} MappedHead(ts: seq<Token>, tail: Text)
    requires ts != []
    ensures Spell(MapTokens(ts, RewriteToken)) + tail
         == SpellToken(RewriteToken(ts[0])) + (Spell(MapTokens(ts[1..], RewriteToken)) + tail)
  {
    SpellHead(MapTokens(ts, RewriteToken), tail);
    assert MapTokens(ts, RewriteToken)[1..] == MapTokens(ts[1..], RewriteToken);
  }

  lemma {:induction false} LexThen(ts: seq<Token>, tail: Text)
    requires Sound(ts) && Lex(tail).None?
    ensures Lex(Spell(ts) + tail).None?
  {
    if ts == [] {
      assert [] + tail == tail;
    } else {
      FirstBreaks(ts, tail);
      SpellHead(ts, tail);
      TokenReadsBack(ts[0], Spell(ts[1..]) + tail);
      LexThen(ts[1..], tail);
    }
  }

  lemma {:induction false} InsideChars(cs: seq<Char>, rest: Text)
    ensures Inside(SpellChars(cs) + rest) == SpellChars(cs) + Inside(rest)
  {
    if cs == [] {
      assert [] + rest == rest && [] + Inside(rest) == Inside(rest);
    } else {
      SpellCharsSplit(cs, rest);
      SpellCharsSplit(cs, Inside(rest));
      InsideChar(cs[0], SpellChars(cs[1..]) + rest);
      InsideChars(cs[1..], rest);
    }
  }

  lemma {:induction false} InsideEscape(d: Digit, rest: Text)
    ensures Inside([BACKSLASH] + ([d] + rest)) == [BACKSLASH] + ([d] + Inside(rest))
  {
    var s := [BACKSLASH] + ([d] + rest);
    assert s[1] == d && s[2..] == rest;
    assert [BACKSLASH, d] + Inside(rest) == [BACKSLASH] + ([d] + Inside(rest));
  }

  lemma {:induction false} OutsideBroken(cs: seq<Char>, d: Digit, rest: Text)
    ensures Outside(Broken(cs, [d] + rest)) == Broken(cs, [d] + Inside(rest))
  {
    OutsideOpening(SpellChars(cs) + ([BACKSLASH] + ([d] + rest)));
    InsideChars(cs, [BACKSLASH] + ([d] + rest));
    InsideEscape(d, rest);
  }

  lemma {:induction false} BadEscape(d: Digit, rest: Text)
    ensures LexChars([BACKSLASH] + ([d] + rest)).None?
  {
    var s := [BACKSLASH] + ([d] + rest);
    assert s[0] == BACKSLASH && s[1] == d;
    assert IsDigit(d);
    assert LexChar(s).None?;
  }

  lemma {:induction false} LexBadChars(cs: seq<Char>, tail: Text)
    requires LexChars(tail).None?
    ensures LexChars(SpellChars(cs) + tail).None?
  {
    if cs == [] {
      assert [] + tail == tail;
    } else {
      SpellCharsSplit(cs, tail);
      CharReadsBack(cs[0], SpellChars(cs[1..]) + tail);
      LexBadChars(cs[1..], tail);
    }
  }

  lemma {:induction false} LexBroken(cs: seq<Char>, d: Digit, rest: Text)
    ensures Lex(Broken(cs, [d] + rest)).None?
  {
    var inner := SpellChars(cs) + ([BACKSLASH] + ([d] + rest));
    BadEscape(d, rest);
    LexBadChars(cs, [BACKSLASH] + ([d] + rest));
    Parts([QUOTE], inner);
    assert Broken(cs, [d] + rest)[0] == QUOTE;
    assert LexToken(Broken(cs, [d] + rest)).None?;
  }

  lemma {:induction false} RewriteTame()
    ensures Tame(RewriteToken)
  {
  }

  lemma {:induction false} WreckUnread(w: Wreck)
    requires Sound(w.tokens)
    ensures Read(WreckText(w)).None?
  {
    OutsideThen(w.tokens, Broken(w.chars, [w.digit] + w.rest));
    OutsideBroken(w.chars, w.digit, w.rest);
    RewriteTame();
    MapSound(w.tokens, RewriteToken);
    LexBroken(w.chars, w.digit, Inside(w.rest));
    LexThen(MapTokens(w.tokens, RewriteToken), Broken(w.chars, [w.digit] + Inside(w.rest)));
  }

  // ---- a wreck stays one --------------------------------------------------------------------------

  /** No placeholder fits between a quotation mark and chars that go on to a backslash. */
  lemma {:induction false} NoPrefix(cs: seq<Char>, h: seq<Unescaped>, x: Text)
    ensures !(h + [QUOTE] <= SpellChars(cs) + ([BACKSLASH] + x))
  {
    var s := SpellChars(cs) + ([BACKSLASH] + x);
    if h + [QUOTE] <= s {
      if cs == [] {
        assert s == [BACKSLASH] + x;
        FirstUnits(h, BACKSLASH, x);
      } else {
        var spelt := SpellChar(cs[0]);
        SpellCharsSplit(cs, [BACKSLASH] + x);
        var more := SpellChars(cs[1..]) + ([BACKSLASH] + x);
        HeadFirst(spelt, more);
        FirstUnits(h, spelt[0], spelt[1..] + more);
        assert spelt[1..] + more == more;
        NoPrefix(cs[1..], h[1..], x);
      }
    }
  }

  lemma {:induction false} FirstUnits(h: seq<Unescaped>, u: Unit, rest: Text)
    requires h + [QUOTE] <= [u] + rest
    ensures if h == [] then u == QUOTE else u == h[0] && h[1..] + [QUOTE] <= rest
  {
    if h == [] {
      assert h + [QUOTE] == [QUOTE] + [];
      PrefixHead(QUOTE, [], u, rest);
    } else {
      HeadFirst(h, [QUOTE]);
      PrefixHead(h[0], h[1..] + [QUOTE], u, rest);
    }
  }

  lemma {:induction false} SkipCharsTo(cs: seq<Char>, x: Text, h: Placeholder, to: Text)
    ensures ReplaceAll(SpellChars(cs) + ([BACKSLASH] + x), Quoted(h), to)
         == SpellChars(cs) + ([BACKSLASH] + ReplaceAll(x, Quoted(h), to))
  {
    var tail, after := [BACKSLASH] + x, [BACKSLASH] + ReplaceAll(x, Quoted(h), to);
    if cs == [] {
      assert [] + tail == tail && [] + after == after;
      SkipUnquoted(BACKSLASH, x, h, to);
    } else {
      SpellCharsSplit(cs, tail);
      SpellCharsSplit(cs, after);
      NoPrefix(cs[1..], h, x);
      SkipChar(cs[0], SpellChars(cs[1..]) + tail, h, to);
      SkipCharsTo(cs[1..], x, h, to);
    }
  }

  lemma {:induction false} ReplaceBroken(cs: seq<Char>, x: Text, h: Placeholder, to: Text)
    ensures ReplaceAll(Broken(cs, x), Quoted(h), to) == Broken(cs, ReplaceAll(x, Quoted(h), to))
  {
    NoPrefix(cs, h, x);
    SkipQuote(h, SpellChars(cs) + ([BACKSLASH] + x), to);
    SkipCharsTo(cs, x, h, to);
  }

  lemma {:induction false} ReplaceThen(ts: seq<Token>, tail: Text, h: Placeholder, n: Number)
    requires Sound(ts) && Untangled(ts, h)
    ensures ReplaceAll(Spell(ts) + tail, Quoted(h), SpellNumber(n))
         == Spell(MapTokens(ts, Replacer(h, n))) + ReplaceAll(tail, Quoted(h), SpellNumber(n))
  {
    var after := ReplaceAll(tail, Quoted(h), SpellNumber(n));
    if ts == [] {
      assert [] + tail == tail && [] + after == after;
    } else {
      var f := Replacer(h, n);
      FirstBreaks(ts, tail);
      SpellHead(ts, tail);
      ReplaceOne(ts[0], Spell(ts[1..]) + tail, h, n);
      ReplaceThen(ts[1..], tail, h, n);
      SpellHead(MapTokens(ts, f), after);
      assert MapTokens(ts, f)[1..] == MapTokens(ts[1..], f);
    }
  }

  lemma {:induction false} ReplacerTame(h: Placeholder, n: Number)
    ensures Tame(Replacer(h, n))
  {
  }

  /** The first tangled string. */
  lemma {:induction false} FirstTangle(ts: seq<Token>, h: Placeholder) returns (k: nat)
    requires Separated(ts) && !Untangled(ts, h)
    ensures k < |ts| && ts[k].TString? && EndsQuoted(ts[k].chars, h) && Sound(ts[..k]) && Untangled(ts[..k], h)
  {
    if ts[0].TString? && EndsQuoted(ts[0].chars, h) {
      k := 0;
    } else {
      var j := FirstTangle(ts[1..], h);
      k := j + 1;
      assert ts[..k][0] == ts[0] && ts[..k][1..] == ts[1..][..j];
      if !ts[0].TMark? {
        assert ts[1..][0].TMark?;
        assert j > 0 && ts[1..][..j][0] == ts[1..][0];
      }
    }
  }

  /** The escaped quotation mark before the placeholder. */
  lemma {:induction false} TangledAt(cs: seq<Char>, h: Placeholder) returns (i: nat)
    requires EndsQuoted(cs, h)
    ensures i < |cs| && cs[i] == Escape(QUOTE) && SpellChars(cs[i + 1..]) == h
  {
    if cs[0] == Escape(QUOTE) && SpellChars(cs[1..]) == h {
      i := 0;
    } else {
      i := TangledAt(cs[1..], h);
      assert cs[1..][i + 1..] == cs[i + 2..];
      i := i + 1;
    }
  }

  lemma {:induction false} SpellCharsJoin(a: seq<Char>, b: seq<Char>)
    ensures SpellChars(a + b) == SpellChars(a) + SpellChars(b)
  {
    if a == [] {
      assert a + b == b;
    } else {
      assert (a + b)[1..] == a[1..] + b;
      SpellCharsJoin(a[1..], b);
      Associate(SpellChar(a[0]), SpellChars(a[1..]), SpellChars(b));
    }
  }

  /** The spelling of a tangled string: chars, a backslash, and the quoted placeholder. */
  lemma {:induction false} TangledSpelling(cs: seq<Char>, i: nat, h: Placeholder, rest: Text)
    requires i < |cs| && cs[i] == Escape(QUOTE) && SpellChars(cs[i + 1..]) == h
    ensures SpellToken(TString(cs)) + rest == Broken(cs[..i], Quoted(h) + rest)
  {
    var spelt := SpellChars(cs[..i]);
    assert cs == cs[..i] + cs[i..] && cs[i..][1..] == cs[i + 1..];
    SpellCharsJoin(cs[..i], cs[i..]);
    assert SpellChars(cs[i..]) == [BACKSLASH, QUOTE] + h;
    Tangled(spelt, h, rest);
  }

  lemma {:induction false} Tangled(spelt: Text, h: Text, rest: Text)
    ensures [QUOTE] + ((spelt + ([BACKSLASH, QUOTE] + h)) + [QUOTE]) + rest
         == [QUOTE] + (spelt + ([BACKSLASH] + (([QUOTE] + (h + [QUOTE])) + rest)))
  {
  }

  lemma {:induction false} SpellJoin(a: seq<Token>, b: seq<Token>)
    ensures Spell(a + b) == Spell(a) + Spell(b)
  {
    if a == [] {
      assert a + b == b;
    } else {
      assert (a + b)[1..] == a[1..] + b;
      SpellJoin(a[1..], b);
      Associate(SpellToken(a[0]), Spell(a[1..]), Spell(b));
    }
  }

  lemma {:induction false} SpellAround(ts: seq<Token>, k: nat, tail: Text)
    requires k < |ts|
    ensures Spell(ts) + tail == Spell(ts[..k]) + (SpellToken(ts[k]) + (Spell(ts[k + 1..]) + tail))
  {
    assert ts == ts[..k] + ts[k..] && ts[k..][1..] == ts[k + 1..];
    SpellJoin(ts[..k], ts[k..]);
    Regroup(Spell(ts[..k]), SpellToken(ts[k]), Spell(ts[k + 1..]), tail);
  }

  /** Replacing at a tangled string wrecks the text. */
  lemma {:induction false} TangleWrecks(ts: seq<Token>, tail: Text, n: Big) returns (w: Wreck)
    requires Separated(ts) && !Untangled(ts, Holder(n))
    ensures Sound(w.tokens) && ReplaceBig(Spell(ts) + tail, n) == WreckText(w)
  {
    var h, number := Holder(n), IntegerNumber(n);
    var to := SpellNumber(number);
    var k := FirstTangle(ts, h);
    var cs := ts[k].chars;
    var i := TangledAt(cs, h);
    var rest := Spell(ts[k + 1..]) + tail;
    SpellAround(ts, k, tail);
    TangledSpelling(cs, i, h, rest);
    ReplaceThen(ts[..k], Broken(cs[..i], Quoted(h) + rest), h, number);
    ReplaceBroken(cs[..i], Quoted(h) + rest, h, to);
    Found(h, rest, to);
    var after := ReplaceAll(rest, Quoted(h), to);
    BigSpelling(n);
    HeadFirst(to, after);
    w := Wreck(MapTokens(ts[..k], Replacer(h, number)), cs[..i], to[0], to[1..] + after);
    ReplacerTame(h, number);
    MapSound(ts[..k], Replacer(h, number));
  }

  lemma {:induction false} BigSpelling(n: Big)
    ensures SpellNumber(IntegerNumber(n)) != [] && IsDigit(SpellNumber(IntegerNumber(n))[0])
  {
  }

  lemma {:induction false} WreckReplaced(w: Wreck, n: Big) returns (after: Wreck)
    requires Sound(w.tokens)
    ensures Sound(after.tokens) && ReplaceBig(WreckText(w), n) == WreckText(after)
  {
    var h, number := Holder(n), IntegerNumber(n);
    var to := SpellNumber(number);
    var tail := Broken(w.chars, [w.digit] + w.rest);
    if Untangled(w.tokens, h) {
      ReplaceThen(w.tokens, tail, h, number);
      ReplaceBroken(w.chars, [w.digit] + w.rest, h, to);
      SkipUnquoted(w.digit, w.rest, h, to);
      after := Wreck(MapTokens(w.tokens, Replacer(h, number)), w.chars, w.digit, ReplaceAll(w.rest, Quoted(h), to));
      ReplacerTame(h, number);
      MapSound(w.tokens, Replacer(h, number));
    } else {
      after := TangleWrecks(w.tokens, tail, n);
    }
  }

  lemma {:induction false} WreckStays(w: Wreck, ns: seq<Big>)
    requires Sound(w.tokens)
    ensures Read(ReplaceEach(WreckText(w), ns)).None?
    decreases ns
  {
    if ns == [] {
      WreckUnread(w);
    } else {
      var after := WreckReplaced(w, ns[0]);
      WreckStays(after, ns[1..]);
    }
  }

  // ---- tangled tokens are wrecked -----------------------------------------------------------------

  predicate UntangledAll(ts: seq<Token>, ns: seq<Big>) {
    ns == [] || (Untangled(ts, Holder(ns[0])) && UntangledAll(ts, ns[1..]))
  }

  function ReplacedTokens(ts: seq<Token>, n: Big): seq<Token> {
    MapTokens(ts, Replacer(Holder(n), IntegerNumber(n)))
  }

  lemma {:induction false} ReplacedSeparated(ts: seq<Token>, n: Big)
    requires Separated(ts)
    ensures Separated(ReplacedTokens(ts, n))
  {
    if ts != [] {
      ReplacedSeparated(ts[1..], n);
      assert ReplacedTokens(ts, n)[1..] == ReplacedTokens(ts[1..], n);
      if ts[1..] != [] {
        assert ReplacedTokens(ts[1..], n)[0] == ReplaceToken(ts[1], Holder(n), IntegerNumber(n));
      }
    }
  }

  /** A tangled string is no placeholder, so another replacement leaves it. */
  lemma {:induction false} TangledIsNoHolder(cs: seq<Char>, h: Placeholder, other: seq<Unescaped>)
    requires EndsQuoted(cs, h)
    ensures SpellChars(cs) != other
  {
    if SpellChars(cs) == other {
      assert other == SpellChar(cs[0]) + SpellChars(cs[1..]);
      assert other[0] == SpellChar(cs[0])[0];
      if cs[0] != Escape(QUOTE) {
        assert SpellChar(cs[0]) == [other[0]];
        TangledIsNoHolder(cs[1..], h, other[1..]);
      }
    }
  }

  lemma {:induction false} ReplacedUntangled(ts: seq<Token>, n: Big, other: Placeholder)
    ensures Untangled(ReplacedTokens(ts, n), other) <==> Untangled(ts, other)
  {
    if ts != [] {
      ReplacedUntangled(ts[1..], n, other);
      assert ReplacedTokens(ts, n)[1..] == ReplacedTokens(ts[1..], n);
      if ts[0].TString? && EndsQuoted(ts[0].chars, other) {
        TangledIsNoHolder(ts[0].chars, other, Holder(n));
      }
    }
  }

  lemma {:induction false} ReplacedUntangledAll(ts: seq<Token>, n: Big, ns: seq<Big>)
    ensures UntangledAll(ReplacedTokens(ts, n), ns) <==> UntangledAll(ts, ns)
  {
    if ns != [] {
      ReplacedUntangled(ts, n, Holder(ns[0]));
      ReplacedUntangledAll(ts, n, ns[1..]);
    }
  }

  /** If any string is tangled with any of the placeholders, the written text is not read. */
  lemma {:induction false} TangledUnread(ts: seq<Token>, ns: seq<Big>)
    requires Separated(ts) && !UntangledAll(ts, ns)
    ensures Read(ReplaceEach(Spell(ts), ns)).None?
    decreases ns
  {
    if Untangled(ts, Holder(ns[0])) {
      ReplaceTokens(ts, Holder(ns[0]), IntegerNumber(ns[0]));
      ReplacedSeparated(ts, ns[0]);
      ReplacedUntangledAll(ts, ns[0], ns[1..]);
      TangledUnread(ReplacedTokens(ts, ns[0]), ns[1..]);
    } else {
      var w := TangleWrecks(ts, [], ns[0]);
      assert Spell(ts) + [] == Spell(ts);
      WreckStays(w, ns[1..]);
    }
  }
}
