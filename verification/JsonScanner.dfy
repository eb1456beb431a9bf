/** Reading JSON without losing large integers: a scanner quotes and marks every integer
    outside the safe range, the standard parser runs, and marked strings are revived. */
module JsonScanner {
  import opened Wrappers
  import opened JsonText
  import opened JsonParse

  /** Number.MAX_SAFE_INTEGER; the least safe integer is its negative. */
  const MAX_SAFE: int := 9007199254740991

  /** "__BIGINT__" */
  const MARKER: seq<Unescaped> := [95, 95, 66, 73, 71, 73, 78, 84, 95, 95]

  predicate Safe(n: int) {
    -MAX_SAFE <= n <= MAX_SAFE
  }

  // ---- what the scanner makes of a text -------------------------------------------------

  function FractionLength(s: Text): (n: nat)
    ensures n <= |s|
  {
    if s != [] && s[0] == DOT then 1 + |DigitRun(s[1..])| else 0
  }

  function SignLength(s: Text): (n: nat)
    ensures n <= |s|
  {
    if s != [] && (s[0] == PLUS || s[0] == MINUS) then 1 else 0
  }

  function ExponentLength(s: Text): (n: nat)
    ensures n <= |s|
  {
    if s != [] && IsExponentMark(s[0]) then
      var sign := SignLength(s[1..]);
      1 + sign + |DigitRun(s[1 + sign..])|
    else 0
  }

  /** The length of a number that starts with digits, as far as the scanner follows it. */
  function NumberLength(s: Text): (n: nat)
    ensures |DigitRun(s)| <= n <= |s|
  {
    var digits := |DigitRun(s)|;
    var fraction := FractionLength(s[digits..]);
    digits + fraction + ExponentLength(s[digits + fraction..])
  }

  function Signed(negative: bool, s: Text): Text {
    if negative then [MINUS] + s else s
  }

  function SignedValue(negative: bool, digits: seq<Digit>): int {
    if negative then -DigitsValue(digits) else DigitsValue(digits)
  }

  /** What stands for the number at the head of s: an integer of 15 or more digits outside
      the safe range becomes a marked string. */
  function Placed(negative: bool, s: Text): Text {
    var n := NumberLength(s);
    var digits := DigitRun(s);
    if n == |digits| && n >= 15 && !Safe(SignedValue(negative, digits)) then
      [QUOTE] + (MARKER + Signed(negative, s[..n]) + [QUOTE])
    else Signed(negative, s[..n])
  }

  /** The rewriting of a text read from outside any string. */
  function Outside(s: Text): Text
    decreases |s|
  {
    if s == [] then []
    else if s[0] == QUOTE then [QUOTE] + Inside(s[1..])
    else if IsDigit(s[0]) then Placed(false, s) + Outside(s[NumberLength(s)..])
    else if s[0] == MINUS && |s| > 1 && IsDigit(s[1]) then
      Placed(true, s[1..]) + Outside(s[1..][NumberLength(s[1..])..])
    else [s[0]] + Outside(s[1..])
  }

  /** The rewriting of a text read from inside a string: copied to its closing mark. */
  function Inside(s: Text): Text
    decreases |s|
  {
    if s == [] then []
    else if s[0] == BACKSLASH && |s| > 1 then [BACKSLASH, s[1]] + Inside(s[2..])
    else if s[0] == QUOTE then [QUOTE] + Outside(s[1..])
    else [s[0]] + Inside(s[1..])
  }

  // ---- the scanner ------------------------------------------------------------------------

  function Join(parts: seq<Text>): Text {
    if parts == [] then [] else Join(parts[..|parts| - 1]) + parts[|parts| - 1]
  }

  lemma {:induction false} JoinPush(parts: seq<Text>, part: Text)
    ensures Join(parts + [part]) == Join(parts) + part
  {
    assert (parts + [part])[..|parts|] == parts;
  }

  predicate EndsInMinus(parts: seq<Text>) {
    parts != [] && parts[|parts| - 1] == [MINUS]
  }

  /** The whole rewriting, given the parts so far and the text still to be read. A minus just
      pushed may still belong to a number. */
  function Outcome(parts: seq<Text>, inString: bool, rest: Text): Text {
    if inString then Join(parts) + Inside(rest)
    else if EndsInMinus(parts) then Join(parts[..|parts| - 1]) + Outside([MINUS] + rest)
    else Join(parts) + Outside(rest)
  }

  /** A pushed part counts like the text it stands for. */
  lemma {:induction false} PushPart(parts: seq<Text>, part: Text, rest: Text)
    ensures Join(parts + [part]) + rest == Join(parts) + (part + rest)
  {
    JoinPush(parts, part);
  }

  lemma {:induction false} OutsideQuote(s: Text)
    requires s != [] && s[0] == QUOTE
    ensures Outside(s) == [QUOTE] + Inside(s[1..])
  {
  }

  lemma {:induction false} InsideQuote(s: Text)
    requires s != [] && s[0] == QUOTE
    ensures Inside(s) == [QUOTE] + Outside(s[1..])
  {
  }

  lemma {:induction false} OutsideCopies(s: Text)
    requires s != [] && s[0] != QUOTE && !IsDigit(s[0]) && (s[0] == MINUS && |s| > 1 ==> !IsDigit(s[1]))
    ensures Outside(s) == [s[0]] + Outside(s[1..])
  {
  }

  lemma {:induction false} OutsideNumber(negative: bool, s: Text)
    requires s != [] && IsDigit(s[0])
    ensures Outside(Signed(negative, s)) == Placed(negative, s) + Outside(s[NumberLength(s)..])
  {
    assert ([MINUS] + s)[1..] == s;
  }

  lemma {:induction false} LoneMinus(parts: seq<Text>, rest: Text)
    requires rest == [] || !IsDigit(rest[0])
    ensures Outcome(parts, false, rest) == Join(parts) + Outside(rest)
  {
    if EndsInMinus(parts) {
      var s := [MINUS] + rest;
      assert s[1..] == rest;
      OutsideCopies(s);
      PushPart(parts[..|parts| - 1], [MINUS], Outside(rest));
      assert parts[..|parts| - 1] + [[MINUS]] == parts;
    }
  }

  lemma {:induction false} PushInside(parts: seq<Text>, rest: Text)
    requires rest != [] && rest[0] != BACKSLASH && rest[0] != QUOTE
    ensures Outcome(parts + [[rest[0]]], true, rest[1..]) == Outcome(parts, true, rest)
  {
    PushPart(parts, [rest[0]], Inside(rest[1..]));
  }

  lemma {:induction false} PushEscape(parts: seq<Text>, rest: Text)
    requires |rest| > 1 && rest[0] == BACKSLASH
    ensures Outcome(parts + [[BACKSLASH]] + [[rest[1]]], true, rest[2..]) == Outcome(parts, true, rest)
  {
    var tail := Inside(rest[2..]);
    PushPart(parts + [[BACKSLASH]], [rest[1]], tail);
    PushPart(parts, [BACKSLASH], [rest[1]] + tail);
    assert [BACKSLASH] + ([rest[1]] + tail) == [BACKSLASH, rest[1]] + tail;
  }

  lemma {:induction false} PushLastBackslash(parts: seq<Text>, rest: Text)
    requires rest == [BACKSLASH]
    ensures Outcome(parts + [[BACKSLASH]], true, []) == Outcome(parts, true, rest)
  {
    assert Inside(rest) == [BACKSLASH] + Inside([]);
    PushPart(parts, [BACKSLASH], Inside([]));
  }

  lemma {:induction false} PushOpening(parts: seq<Text>, rest: Text)
    requires rest != [] && rest[0] == QUOTE
    ensures Outcome(parts + [[QUOTE]], true, rest[1..]) == Outcome(parts, false, rest)
  {
    LoneMinus(parts, rest);
    OutsideQuote(rest);
    PushPart(parts, [QUOTE], Inside(rest[1..]));
  }

  lemma {:induction false} PushClosing(parts: seq<Text>, rest: Text)
    requires rest != [] && rest[0] == QUOTE
    ensures Outcome(parts + [[QUOTE]], false, rest[1..]) == Outcome(parts, true, rest)
  {
    InsideQuote(rest);
    PushPart(parts, [QUOTE], Outside(rest[1..]));
    assert !EndsInMinus(parts + [[QUOTE]]);
  }

  lemma {:induction false} PushOutside(parts: seq<Text>, rest: Text)
    requires rest != [] && rest[0] != QUOTE && !IsDigit(rest[0])
    ensures Outcome(parts + [[rest[0]]], false, rest[1..]) == Outcome(parts, false, rest)
  {
    LoneMinus(parts, rest);
    if rest[0] == MINUS {
      assert (parts + [[MINUS]])[..|parts|] == parts;
      assert [MINUS] + rest[1..] == rest;
    } else {
      OutsideCopies(rest);
      PushPart(parts, [rest[0]], Outside(rest[1..]));
    }
  }

  lemma {:induction false} PushNumber(parts: seq<Text>, kept: seq<Text>, placed: Text, rest: Text, tail: Text)
    requires rest != [] && IsDigit(rest[0]) && tail == rest[NumberLength(rest)..]
    requires kept == if EndsInMinus(parts) then parts[..|parts| - 1] else parts
    requires placed == Placed(EndsInMinus(parts), rest)
    ensures Outcome(kept + [placed], false, tail) == Outcome(parts, false, rest)
  {
    var negative := EndsInMinus(parts);
    PlacedIsNoMinus(negative, rest);
    OutsideNumber(negative, rest);
    PushPart(kept, placed, Outside(tail));
    assert !EndsInMinus(kept + [placed]);
  }

  lemma {:induction false} PlacedIsNoMinus(negative: bool, s: Text)
    requires s != [] && IsDigit(s[0])
    ensures Placed(negative, s) != [MINUS]
  {
    assert DigitRun(s) != [];
    var number := s[..NumberLength(s)];
    assert number[0] == s[0];
    assert Signed(negative, number) != [MINUS];
  }

  /** Moves past digits. */
  method SkipDigits(json: Text, start: nat) returns (i: nat)
    requires start <= |json|
    ensures i == start + |DigitRun(json[start..])| <= |json|
  {
    i := start;
    while i < |json| && IsDigit(json[i])
      invariant start <= i <= |json|
      invariant i + |DigitRun(json[i..])| == start + |DigitRun(json[start..])|
    {
      assert json[i..][1..] == json[i + 1..];
      i := i + 1;
    }
  }

  method SkipFraction(json: Text, start: nat) returns (i: nat)
    requires start <= |json|
    ensures i == start + FractionLength(json[start..]) <= |json|
  {
    i := start;
    if i < |json| && json[i] == DOT {
      assert json[start..][1..] == json[start + 1..];
      i := SkipDigits(json, i + 1);
    }
  }

  method SkipExponent(json: Text, start: nat) returns (i: nat)
    requires start <= |json|
    ensures i == start + ExponentLength(json[start..]) <= |json|
  {
    i := start;
    if i < |json| && IsExponentMark(json[i]) {
      ghost var s := json[start..];
      ghost var sign := SignLength(s[1..]);
      assert s[1..] == json[start + 1..] && s[1 + sign..] == json[start + 1 + sign..];
      i := i + 1;
      if i < |json| && (json[i] == PLUS || json[i] == MINUS) {
        i := i + 1;
      }
      i := SkipDigits(json, i);
    }
  }

  lemma {:induction false} SuffixOfSuffix(json: Text, start: nat, end: nat)
    requires start <= end <= |json|
    ensures json[start..][end - start..] == json[end..]
  {
  }

  /** Moves past the number at start; it is a float if anything follows its digits. */
  method SkipNumber(json: Text, start: nat) returns (i: nat, isFloat: bool)
    requires start < |json| && IsDigit(json[start])
    ensures i == start + NumberLength(json[start..]) && start < i <= |json|
    ensures isFloat == (NumberLength(json[start..]) > |DigitRun(json[start..])|)
  {
    var end := SkipDigits(json, start);
    SuffixOfSuffix(json, start, end);
    var afterFraction := SkipFraction(json, end);
    SuffixOfSuffix(json, start, afterFraction);
    i := SkipExponent(json, afterFraction);
    isFloat := i > end;
    assert DigitRun(json[start..]) != [];
  }

  /** Moves past the number at start and gives what replaces it. */
  method PlaceNumber(json: Text, start: nat, hasMinus: bool) returns (placed: Text, i: nat)
    requires start < |json| && IsDigit(json[start])
    ensures i == start + NumberLength(json[start..]) && start < i <= |json|
    ensures placed == Placed(hasMinus, json[start..])
  {
    var isFloat;
    i, isFloat := SkipNumber(json, start);
    ghost var s := json[start..];
    assert json[start..i] == s[..NumberLength(s)];
    placed := Signed(hasMinus, json[start..i]);
    if !isFloat && i - start >= 15 {
      RunIsPrefix(s);
      var num := BigIntOfDigits(hasMinus, json[start..i]);
      if num > MAX_SAFE || num < -MAX_SAFE {
        placed := [QUOTE] + (MARKER + placed + [QUOTE]);
      }
    }
  }

  /** BigInt of an optional minus and digits. */
  function BigIntOfDigits(negative: bool, s: Text): int
    requires s == DigitRun(s)
  {
    SignedValue(negative, DigitRun(s))
  }

  lemma {:induction false} RunIsPrefix(s: Text)
    ensures DigitRun(s) == s[..|DigitRun(s)|] && DigitRun(DigitRun(s)) == DigitRun(s)
  {
    if s != [] && IsDigit(s[0]) {
      RunIsPrefix(s[1..]);
      assert DigitRun(s)[1..] == DigitRun(s[1..]);
    }
  }

  /** The scanner's step inside a string. */
  method CopyInside(json: Text, start: nat, parts: seq<Text>) returns (result: seq<Text>, i: nat, inString: bool)
    requires start < |json|
    ensures start < i <= |json|
    ensures Outcome(result, inString, json[i..]) == Outcome(parts, true, json[start..])
  {
    var unit := json[start];
    ghost var rest := json[start..];
    SuffixOfSuffix(json, start, start + 1);
    result := parts + [[unit]];
    i := start + 1;
    inString := unit != QUOTE;
    if unit == BACKSLASH {
      if i < |json| {
        SuffixOfSuffix(json, start, start + 2);
        PushEscape(parts, rest);
        result := result + [[json[i]]];
        i := i + 1;
      } else {
        PushLastBackslash(parts, rest);
      }
    } else if unit == QUOTE {
      PushClosing(parts, rest);
    } else {
      PushInside(parts, rest);
    }
  }

  /** The scanner's step at a digit outside any string. */
  method CopyNumber(json: Text, start: nat, parts: seq<Text>) returns (result: seq<Text>, i: nat)
    requires start < |json| && IsDigit(json[start])
    ensures start < i <= |json|
    ensures Outcome(result, false, json[i..]) == Outcome(parts, false, json[start..])
  {
    var hasMinus := |parts| > 0 && parts[|parts| - 1] == [MINUS];
    var kept := if hasMinus then parts[..|parts| - 1] else parts;
    var placed;
    placed, i := PlaceNumber(json, start, hasMinus);
    SuffixOfSuffix(json, start, i);
    PushNumber(parts, kept, placed, json[start..], json[i..]);
    result := kept + [placed];
  }

  /** The scanner: one pass with a look back at the last pushed part. */
  method Scan(json: Text) returns (processed: Text)
    ensures processed == Outside(json)
  {
    var result: seq<Text> := [];
    var i := 0;
    var inString := false;
    assert json[0..] == json;
    while i < |json|
      invariant i <= |json|
      invariant Outcome(result, inString, json[i..]) == Outside(json)
      decreases |json| - i
    {
      var unit := json[i];
      if inString {
        result, i, inString := CopyInside(json, i, result);
      } else if IsDigit(unit) {
        result, i := CopyNumber(json, i, result);
      } else {
        SuffixOfSuffix(json, i, i + 1);
        if unit == QUOTE {
          PushOpening(result, json[i..]);
          inString := true;
        } else {
          PushOutside(result, json[i..]);
        }
        result := result + [[unit]];
        i := i + 1;
      }
    }
    if !inString {
      LoneMinus(result, json[i..]);
    }
    processed := Join(result);
  }
}
