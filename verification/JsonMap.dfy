/** Replacing the leaves of a syntax tree, seen in its tokens. */
module JsonMap {
  import opened JsonText

  function MapTokens(ts: seq<Token>, f: Token -> Token): (r: seq<Token>)
    ensures |r| == |ts|
  {
    if ts == [] then [] else [f(ts[0])] + MapTokens(ts[1..], f)
  }

  /** Marks are kept and nothing else becomes a mark. */
  ghost predicate Tame(f: Token -> Token) {
    forall t: Token :: if t.TMark? then f(t) == t else !f(t).TMark?
  }

  /** The tree that is one token. */
  function Leaf(t: Token): Json {
    match t
    case TString(cs) => JString(cs)
    case TNumber(n) => JNumber(n)
    case TWord(w) => JWord(w)
    case TMark(_) => JWord(WordNull)
  }

  function MapTree(j: Json, f: Token -> Token): Json {
    match j
    case JWord(w) => Leaf(f(TWord(w)))
    case JNumber(n) => Leaf(f(TNumber(n)))
    case JString(cs) => Leaf(f(TString(cs)))
    case JArray(space, es) => JArray(space, MapElems(es, f))
    case JObject(space, ms) => JObject(space, MapMembers(ms, f))
  }

  function MapElem(e: Elem, f: Token -> Token): Elem {
    Elem(e.before, MapTree(e.value, f), e.after)
  }

  function MapElems(es: seq<Elem>, f: Token -> Token): (r: seq<Elem>)
    ensures |r| == |es|
  {
    if es == [] then []
    else
      assert es decreases to es[0];
      [MapElem(es[0], f)] + MapElems(es[1..], f)
  }

  /** A name is replaced by a string. */
  function MapName(cs: seq<Char>, f: Token -> Token): seq<Char> {
    var t := f(TString(cs));
    if t.TString? then t.chars else cs
  }

  function MapMember(m: Member, f: Token -> Token): Member {
    Member(m.before, MapName(m.key, f), m.mid, MapElem(m.elem, f))
  }

  function MapMembers(ms: seq<Member>, f: Token -> Token): (r: seq<Member>)
    ensures |r| == |ms|
  {
    if ms == [] then []
    else
      assert ms decreases to ms[0];
      [MapMember(ms[0], f)] + MapMembers(ms[1..], f)
  }

  /** The replacement makes every name of the tree a string again. */
  predicate NamesKept(j: Json, f: Token -> Token) {
    match j
    case JArray(_, es) => ElemsNamesKept(es, f)
    case JObject(_, ms) => MembersNamesKept(ms, f)
    case _ => true
  }

  predicate ElemsNamesKept(es: seq<Elem>, f: Token -> Token) {
    es == [] || (assert es decreases to es[0]; NamesKept(es[0].value, f) && ElemsNamesKept(es[1..], f))
  }

  predicate MembersNamesKept(ms: seq<Member>, f: Token -> Token) {
    ms == [] ||
    (assert ms decreases to ms[0];
     f(TString(ms[0].key)).TString? && NamesKept(ms[0].elem.value, f) && MembersNamesKept(ms[1..], f))
  }

  lemma {:induction false} MapJoin(a: seq<Token>, b: seq<Token>, f: Token -> Token)
    ensures MapTokens(a + b, f) == MapTokens(a, f) + MapTokens(b, f)
  {
    if a == [] {
      assert a + b == b;
    } else {
      assert (a + b)[1..] == a[1..] + b;
      MapJoin(a[1..], b, f);
    }
  }

  lemma {:induction false} MapSpace(s: seq<Space>, f: Token -> Token)
    requires Tame(f)
    ensures MapTokens(SpaceTokens(s), f) == SpaceTokens(s)
  {
    if s != [] {
      MapSpace(s[1..], f);
      assert SpaceTokens(s)[1..] == SpaceTokens(s[1..]);
    }
  }

  lemma {:induction false} MapCons(t: Token, ts: seq<Token>, f: Token -> Token)
    ensures MapTokens([t] + ts, f) == [f(t)] + MapTokens(ts, f)
  {
    assert ([t] + ts)[1..] == ts;
  }

  lemma {:induction false} MapBrackets(open: Mark, space: seq<Space>, inner: seq<Token>, close: Mark, f: Token -> Token)
    requires Tame(f)
    ensures MapTokens([TMark(open)] + (SpaceTokens(space) + (inner + [TMark(close)])), f)
         == [TMark(open)] + (SpaceTokens(space) + (MapTokens(inner, f) + [TMark(close)]))
  {
    MapCons(TMark(open), SpaceTokens(space) + (inner + [TMark(close)]), f);
    MapJoin(SpaceTokens(space), inner + [TMark(close)], f);
    MapSpace(space, f);
    MapJoin(inner, [TMark(close)], f);
    MapCons(TMark(close), [], f);
    assert [TMark(close)] + [] == [TMark(close)];
  }

  lemma {:induction false} MapLeaf(t: Token, f: Token -> Token)
    requires Tame(f) && !t.TMark?
    ensures MapTokens([t], f) == Tokens(Leaf(f(t)))
  {
    MapCons(t, [], f);
    assert [t] + [] == [t];
  }

  lemma {:induction false} TreeMaps(j: Json, f: Token -> Token)
    requires Tame(f) && NamesKept(j, f)
    ensures MapTokens(Tokens(j), f) == Tokens(MapTree(j, f))
  {
    match j
    case JWord(w) => MapLeaf(TWord(w), f);
    case JNumber(n) => MapLeaf(TNumber(n), f);
    case JString(cs) => MapLeaf(TString(cs), f);
    case JArray(space, es) =>
      ElemsMap(es, f);
      MapBrackets(LEFT_BRACKET, space, ElemsTokens(es), RIGHT_BRACKET, f);
    case JObject(space, ms) =>
      MembersMap(ms, f);
      MapBrackets(LEFT_BRACE, space, MembersTokens(ms), RIGHT_BRACE, f);
  }

  lemma {:induction false} ElemMaps(e: Elem, f: Token -> Token)
    requires Tame(f) && NamesKept(e.value, f)
    ensures MapTokens(ElemTokens(e), f) == ElemTokens(MapElem(e, f))
  {
    TreeMaps(e.value, f);
    MapSpace(e.before, f);
    MapSpace(e.after, f);
    MapJoin(Tokens(e.value), SpaceTokens(e.after), f);
    MapJoin(SpaceTokens(e.before), Tokens(e.value) + SpaceTokens(e.after), f);
  }

  lemma {:induction false} ElemsMap(es: seq<Elem>, f: Token -> Token)
    requires Tame(f) && ElemsNamesKept(es, f)
    ensures MapTokens(ElemsTokens(es), f) == ElemsTokens(MapElems(es, f))
  {
    if es != [] {
      assert es decreases to es[0];
      ElemMaps(es[0], f);
      assert MapElems(es, f)[1..] == MapElems(es[1..], f);
      if |es| == 1 {
        MapJoin(ElemTokens(es[0]), [], f);
      } else {
        ElemsMap(es[1..], f);
        MapCons(TMark(COMMA), ElemsTokens(es[1..]), f);
        MapJoin(ElemTokens(es[0]), [TMark(COMMA)] + ElemsTokens(es[1..]), f);
      }
    }
  }

  lemma {:induction false} MemberMaps(m: Member, f: Token -> Token)
    requires Tame(f) && f(TString(m.key)).TString? && NamesKept(m.elem.value, f)
    ensures MapTokens(MemberTokens(m), f) == MemberTokens(MapMember(m, f))
  {
    var value := ElemTokens(m.elem);
    var afterKey := SpaceTokens(m.mid) + ([TMark(COLON)] + value);
    ElemMaps(m.elem, f);
    MapCons(TMark(COLON), value, f);
    MapSpace(m.mid, f);
    MapJoin(SpaceTokens(m.mid), [TMark(COLON)] + value, f);
    MapCons(TString(m.key), afterKey, f);
    MapSpace(m.before, f);
    MapJoin(SpaceTokens(m.before), [TString(m.key)] + afterKey, f);
  }

  lemma {:induction false} MembersMap(ms: seq<Member>, f: Token -> Token)
    requires Tame(f) && MembersNamesKept(ms, f)
    ensures MapTokens(MembersTokens(ms), f) == MembersTokens(MapMembers(ms, f))
  {
    if ms != [] {
      assert ms decreases to ms[0];
      MemberMaps(ms[0], f);
      assert MapMembers(ms, f)[1..] == MapMembers(ms[1..], f);
      assert MapMembers(ms, f)[0] == MapMember(ms[0], f);
      if |ms| == 1 {
        MapJoin(MemberTokens(ms[0]), [], f);
      } else {
        MembersMap(ms[1..], f);
        MapCons(TMark(COMMA), MembersTokens(ms[1..]), f);
        MapJoin(MemberTokens(ms[0]), [TMark(COMMA)] + MembersTokens(ms[1..]), f);
      }
    }
  }
}
