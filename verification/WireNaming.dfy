/** `toChipName`: one global replace per acronym, in table order, equals a single pass that
    upper-cases every acronym occurrence of the original name. */
module WireNaming {

  predicate IsLower(c: char) {
    'a' <= c <= 'z'
  }

  predicate IsUpper(c: char) {
    'A' <= c <= 'Z'
  }

  function ToLower(c: char): char {
    if IsUpper(c) then (c as int + 32) as char else c
  }

  function ToUpper(c: char): char {
    if IsLower(c) then (c as int - 32) as char else c
  }

  /** toLowerCase, on ASCII */
  function Lowered(s: string): (r: string)
    ensures |r| == |s|
  {
    seq(|s|, i requires 0 <= i < |s| => ToLower(s[i]))
  }

  /** Two or more capitals. */
  type Acronym = a: string | |a| >= 2 && (forall i | 0 <= i < |a| :: IsUpper(a[i])) witness "ID"

  /** acr.charAt(0) + acr.slice(1).toLowerCase() */
  function TitleCase(a: Acronym): (t: string)
    ensures |t| == |a| && t[0] == a[0] && forall i | 1 <= i < |a| :: t[i] == ToLower(a[i]) && IsLower(t[i])
  {
    [a[0]] + Lowered(a[1..])
  }

  // ---- the regular expression Title(?=[A-Z]|$|[^a-zA-Z]|s(?=[A-Z]|$|[^a-zA-Z])) -----------

  /** [A-Z] or the end or [^a-zA-Z] */
  predicate NoLowerAt(s: string, q: nat) {
    q >= |s| || !IsLower(s[q])
  }

  predicate BoundaryAt(s: string, q: nat) {
    NoLowerAt(s, q) || (s[q] == 's' && NoLowerAt(s, q + 1))
  }

  predicate MatchesAt(a: Acronym, s: string, p: nat)
  {
    p + |a| <= |s| && s[p..p + |a|] == TitleCase(a) && BoundaryAt(s, p + |a|)
  }

  /** The rest of String.replace from position `p`: scan left to right, jump over each match. */
  function ReplaceFrom(a: Acronym, s: string, p: nat): string
    decreases |s| - p
  {
    if p >= |s| then []
    else if MatchesAt(a, s, p) then a + ReplaceFrom(a, s, p + |a|)
    else [s[p]] + ReplaceFrom(a, s, p + 1)
  }

  function Replace(a: Acronym, s: string): string
  {
    ReplaceFrom(a, s, 0)
  }

  /** Position `i` lies in a match of `a` in `s`. */
  ghost predicate Covered(a: Acronym, s: string, i: nat)
  {
    exists p: nat :: p <= i < p + |a| && MatchesAt(a, s, p)
  }

  lemma {:induction false} MatchChars(a: Acronym, s: string, p: nat)
    requires MatchesAt(a, s, p)
    ensures s[p] == a[0] && forall i | p < i < p + |a| :: IsLower(s[i])
    ensures forall i | p <= i < p + |a| :: ToUpper(s[i]) == a[i - p]
  {
    var t := TitleCase(a);
    forall i | p <= i < p + |a|
      ensures s[i] == t[i - p] && ToUpper(s[i]) == a[i - p]
    {
      assert s[i] == s[p..p + |a|][i - p];
    }
  }

  /** No match reaches over `p`. */
  ghost predicate Clear(a: Acronym, s: string, p: nat) {
    forall m: nat | m < p && MatchesAt(a, s, m) :: m + |a| <= p
  }

  /** Matches of one acronym never overlap, so the scan misses none. */
  lemma {:induction false} AfterMatch(a: Acronym, s: string, p: nat)
    requires MatchesAt(a, s, p)
    ensures Clear(a, s, p + |a|)
  {
    forall m: nat | m < p + |a| && MatchesAt(a, s, m)
      ensures m + |a| <= p + |a|
    {
      MatchChars(a, s, p);
      MatchChars(a, s, m);
    }
  }

  lemma {:induction false} MatchUpper(a: Acronym, s: string, p: nat, i: nat)
    requires MatchesAt(a, s, p) && p <= i < p + |a|
    ensures Covered(a, s, i) && ToUpper(s[i]) == a[i - p]
  {
    MatchChars(a, s, p);
  }

  lemma {:induction false} NoMatch(a: Acronym, s: string, p: nat)
    requires Clear(a, s, p) && !MatchesAt(a, s, p)
    ensures !Covered(a, s, p) && Clear(a, s, p + 1)
  {
  }

  lemma {:induction false} ReplaceFromAt(a: Acronym, s: string, p: nat, i: nat)
    requires p <= |s| && Clear(a, s, p)
    ensures |ReplaceFrom(a, s, p)| == |s| - p
    ensures p <= i < |s| ==> ReplaceFrom(a, s, p)[i - p] == if Covered(a, s, i) then ToUpper(s[i]) else s[i]
    decreases |s| - p
  {
    if p < |s| {
      if MatchesAt(a, s, p) {
        AfterMatch(a, s, p);
        ReplaceFromAt(a, s, p + |a|, i);
        var rest := ReplaceFrom(a, s, p + |a|);
        assert ReplaceFrom(a, s, p) == a + rest;
        if p <= i < p + |a| {
          MatchUpper(a, s, p, i);
        } else if p + |a| <= i < |s| {
          assert (a + rest)[i - p] == rest[i - (p + |a|)];
        }
      } else {
        NoMatch(a, s, p);
        ReplaceFromAt(a, s, p + 1, i);
        assert ReplaceFrom(a, s, p) == [s[p]] + ReplaceFrom(a, s, p + 1);
      }
    }
  }

  /** What one replace does, position by position. */
  lemma {:induction false} ReplaceAt(a: Acronym, s: string, i: nat)
    ensures |Replace(a, s)| == |s|
    ensures i < |s| ==> Replace(a, s)[i] == if Covered(a, s, i) then ToUpper(s[i]) else s[i]
  {
    ReplaceFromAt(a, s, 0, i);
  }

  // ---- tables -------------------------------------------------------------------------------

  predicate IsPlural(a: Acronym, b: Acronym) {
    a == b + "S"
  }

  predicate GoodAcronym(a: Acronym) {
    !(|a| == 2 && a[1] == 'S')
  }

  /** No entry is another plus S, and no two-letter entry ends in S. */
  ghost predicate GoodTable(table: seq<Acronym>) {
    && (forall a | a in table :: GoodAcronym(a))
    && (forall a, b | a in table && b in table :: !IsPlural(a, b))
  }

  /** The loop: one replace after the other, each on the result of the one before. */
  function Rewrite(table: seq<Acronym>, s: string): string
  {
    if table == [] then s else Rewrite(table[1..], Replace(table[0], s))
  }

  ghost predicate CoveredBy(table: seq<Acronym>, s: string, i: nat)
  {
    exists a :: a in table && Covered(a, s, i)
  }

  /** One simultaneous pass: exactly the positions covered in the original are upper-cased. */
  ghost function UpperCovered(table: seq<Acronym>, s: string): (r: string)
    ensures |r| == |s|
  {
    seq(|s|, i requires 0 <= i < |s| => if CoveredBy(table, s, i) then ToUpper(s[i]) else s[i])
  }

  /** Two occurrences in the same name that meet are the same occurrence. */
  lemma {:induction false} Overlap(a: Acronym, b: Acronym, s: string, p: nat, m: nat)
    requires !IsPlural(a, b) && !IsPlural(b, a)
    requires MatchesAt(a, s, p) && MatchesAt(b, s, m) && p < m + |b| && m < p + |a|
    ensures p == m && |a| == |b|
  {
    MatchChars(a, s, p);
    MatchChars(b, s, m);
    if |a| < |b| {
      LongerOccurrence(a, b, s, p);
    } else if |b| < |a| {
      LongerOccurrence(b, a, s, p);
    }
  }

  lemma {:induction false} LongerOccurrence(a: Acronym, b: Acronym, s: string, p: nat)
    requires |a| < |b| && MatchesAt(a, s, p) && MatchesAt(b, s, p)
    ensures IsPlural(b, a)
  {
    MatchChars(a, s, p);
    MatchChars(b, s, p);
    assert s[p + |a|] == 's' && ToUpper('s') == 'S';
    assert b[|a|] == 'S';
    assert forall i | 0 <= i < |a| :: ToUpper(s[p + i]) == a[i] && ToUpper(s[p + i]) == b[i];
  }

  /** A position that still is lower case was not covered. */
  lemma {:induction false} LowerUncovered(table: seq<Acronym>, s: string, i: nat)
    requires i < |s| && IsLower(UpperCovered(table, s)[i])
    ensures !CoveredBy(table, s, i) && s[i] == UpperCovered(table, s)[i]
  {
  }

  lemma {:induction false} Occurrence(table: seq<Acronym>, s: string, i: nat) returns (b: Acronym, m: nat)
    requires CoveredBy(table, s, i)
    ensures b in table && m <= i < m + |b| && MatchesAt(b, s, m)
  {
    b :| b in table && Covered(b, s, i);
    m :| m <= i < m + |b| && MatchesAt(b, s, m);
  }

  lemma {:induction false} CoveredThere(b: Acronym, table: seq<Acronym>, s: string, m: nat, i: nat)
    requires b in table && m <= i < m + |b| && MatchesAt(b, s, m)
    ensures CoveredBy(table, s, i)
  {
    assert Covered(b, s, i);
  }

  /** An occurrence starts with a capital, so covering a lower-case letter it covers the
      position before it too. */
  lemma {:induction false} ReachesBack(b: Acronym, table: seq<Acronym>, s: string, m: nat, i: nat)
    requires b in table && m <= i < m + |b| && MatchesAt(b, s, m) && IsLower(s[i])
    ensures i > 0 && CoveredBy(table, s, i - 1)
  {
    MatchChars(b, s, m);
    CoveredThere(b, table, s, m, i - 1);
  }

  /** No later replace sees an occurrence that the original does not have. */
  lemma {:induction false} NothingNew(a: Acronym, done: seq<Acronym>, s: string, p: nat)
    requires GoodAcronym(a) && MatchesAt(a, UpperCovered(done, s), p)
    ensures MatchesAt(a, s, p)
  {
    var cur := UpperCovered(done, s);
    MatchChars(a, cur, p);
    forall i | p < i < p + |a|
      ensures !CoveredBy(done, s, i) && s[i] == cur[i]
    {
      LowerUncovered(done, s, i);
    }
    StartUncovered(a, done, s, p);
    assert s[p..p + |a|] == cur[p..p + |a|];
    var q := p + |a|;
    if !NoLowerAt(cur, q) {
      LowerUncovered(done, s, q);
      NoLowerKept(done, s, q + 1);
    } else {
      NoLowerKept(done, s, q);
    }
  }

  /** Past an uncovered lower-case letter, a boundary was a boundary before. */
  lemma {:induction false} NoLowerKept(done: seq<Acronym>, s: string, q: nat)
    requires 0 < q <= |s|
    requires !CoveredBy(done, s, q - 1) && NoLowerAt(UpperCovered(done, s), q)
    ensures NoLowerAt(s, q)
  {
    if q < |s| && IsLower(s[q]) && CoveredBy(done, s, q) {
      var b, m := Occurrence(done, s, q);
      ReachesBack(b, done, s, m, q);
    }
  }

  lemma {:induction false} StartUncovered(a: Acronym, done: seq<Acronym>, s: string, p: nat)
    requires GoodAcronym(a)
    requires p + |a| <= |s| && MatchesAt(a, UpperCovered(done, s), p)
    requires forall i | p < i < p + |a| :: !CoveredBy(done, s, i) && s[i] == UpperCovered(done, s)[i]
    ensures !CoveredBy(done, s, p) && s[p] == UpperCovered(done, s)[p]
  {
    if CoveredBy(done, s, p) {
      var b, m := Occurrence(done, s, p);
      if p + 1 < m + |b| {
        CoveredThere(b, done, s, m, p + 1);
      } else {
        EndsBefore(a, b, s, m, p, UpperCovered(done, s));
      }
    } else {
      assert s[p] == UpperCovered(done, s)[p];
    }
  }

  /** `b` ends right after `p`, where `a` goes on: the boundary there was an "s" that makes
      `a` a two-letter acronym in S. */
  lemma {:induction false} EndsBefore(a: Acronym, b: Acronym, s: string, m: nat, p: nat, cur: string)
    requires MatchesAt(b, s, m) && m + |b| == p + 1
    requires |cur| == |s| && MatchesAt(a, cur, p) && forall i | p < i < p + |a| :: s[i] == cur[i]
    ensures |a| == 2 && a[1] == 'S'
  {
    MatchChars(a, cur, p);
    assert IsLower(s[p + 1]);
    assert s[p + 1] == 's';
    assert ToUpper(cur[p + 1]) == a[1];
  }

  /** An occurrence of the original is still there, unless all of it is upper case already. */
  lemma {:induction false} StillThere(a: Acronym, done: seq<Acronym>, s: string, p: nat)
    requires GoodTable(done + [a])
    requires MatchesAt(a, s, p)
    ensures MatchesAt(a, UpperCovered(done, s), p) ||
            forall i | p <= i < p + |a| :: CoveredBy(done, s, i)
  {
    if i :| p <= i < p + |a| && CoveredBy(done, s, i) {
      var b, m := Occurrence(done, s, i);
      assert a in done + [a] && b in done + [a];
      Overlap(a, b, s, p, m);
      forall j | p <= j < p + |a|
        ensures CoveredBy(done, s, j)
      {
        CoveredThere(b, done, s, m, j);
      }
    } else {
      Untouched(a, done, s, p);
    }
  }

  lemma {:induction false} Untouched(a: Acronym, done: seq<Acronym>, s: string, p: nat)
    requires MatchesAt(a, s, p)
    requires forall i | p <= i < p + |a| :: !CoveredBy(done, s, i)
    ensures MatchesAt(a, UpperCovered(done, s), p)
  {
    var cur := UpperCovered(done, s);
    var q := p + |a|;
    assert cur[p..q] == s[p..q];
    if !NoLowerAt(s, q) && CoveredBy(done, s, q) {
      var b, m := Occurrence(done, s, q);
      ReachesBack(b, done, s, m, q);
    }
  }

  /** One replace on the partial result adds exactly that acronym's own occurrences. */
  lemma {:induction false} ReplaceStep(a: Acronym, done: seq<Acronym>, s: string)
    requires GoodTable(done + [a])
    ensures Replace(a, UpperCovered(done, s)) == UpperCovered(done + [a], s)
  {
    var cur := UpperCovered(done, s);
    ReplaceAt(a, cur, 0);
    forall i | 0 <= i < |s|
      ensures Replace(a, cur)[i] == UpperCovered(done + [a], s)[i]
    {
      ReplaceAt(a, cur, i);
      assert CoveredBy(done + [a], s, i) <==> CoveredBy(done, s, i) || Covered(a, s, i) by {
        assert forall b :: b in done + [a] <==> b in done || b == a;
      }
      if !CoveredBy(done, s, i) {
        if Covered(a, s, i) {
          var p: nat :| p <= i < p + |a| && MatchesAt(a, s, p);
          StillThere(a, done, s, p);
          assert Covered(a, cur, i);
        }
        if Covered(a, cur, i) {
          var p: nat :| p <= i < p + |a| && MatchesAt(a, cur, p);
          NothingNew(a, done, s, p);
          assert Covered(a, s, i);
        }
      }
    }
  }

  lemma {:induction false} RewriteFrom(done: seq<Acronym>, table: seq<Acronym>, s: string)
    requires GoodTable(done + table)
    ensures Rewrite(table, UpperCovered(done, s)) == UpperCovered(done + table, s)
    decreases table
  {
    if table == [] {
      assert done + [] == done;
    } else {
      assert done + [table[0]] + table[1..] == done + table;
      assert forall b | b in done + [table[0]] :: b in done + table;
      ReplaceStep(table[0], done, s);
      RewriteFrom(done + [table[0]], table[1..], s);
    }
  }

  /** The sequential loop equals the simultaneous pass, for every name and every good table. */
  lemma {:induction false} SequentialIsSimultaneous(table: seq<Acronym>, s: string)
    requires GoodTable(table)
    ensures Rewrite(table, s) == UpperCovered(table, s)
  {
    assert [] + table == table;
    assert UpperCovered([], s) == s;
    RewriteFrom([], table, s);
  }

  /** Only the case of letters changes. */
  lemma {:induction false} LettersKept(table: seq<Acronym>, s: string)
    requires GoodTable(table)
    ensures Lowered(Rewrite(table, s)) == Lowered(s)
  {
    SequentialIsSimultaneous(table, s);
  }

  /** Table order does not matter. */
  lemma {:induction false} OrderIrrelevant(table: seq<Acronym>, other: seq<Acronym>, s: string)
    requires GoodTable(table) && forall a :: a in table <==> a in other
    ensures GoodTable(other) && Rewrite(table, s) == Rewrite(other, s)
  {
    SequentialIsSimultaneous(table, s);
    SequentialIsSimultaneous(other, s);
    assert forall i: nat :: CoveredBy(table, s, i) <==> CoveredBy(other, s, i);
    assert UpperCovered(table, s) == UpperCovered(other, s);
  }

  /** A second rewrite changes nothing. */
  lemma {:induction false} Idempotent(table: seq<Acronym>, s: string)
    requires GoodTable(table)
    ensures Rewrite(table, Rewrite(table, s)) == Rewrite(table, s)
  {
    SequentialIsSimultaneous(table, s);
    var cur := UpperCovered(table, s);
    SequentialIsSimultaneous(table, cur);
    forall i | 0 <= i < |s|
      ensures UpperCovered(table, cur)[i] == cur[i]
    {
      NothingLeft(table, s, i);
    }
    assert UpperCovered(table, cur) == cur;
  }

  lemma {:induction false} NothingLeft(table: seq<Acronym>, s: string, i: nat)
    requires GoodTable(table)
    ensures !CoveredBy(table, UpperCovered(table, s), i)
  {
    var cur := UpperCovered(table, s);
    if CoveredBy(table, cur, i) {
      var a, p := Occurrence(table, cur, i);
      NothingNew(a, table, s, p);
      MatchChars(a, cur, p);
      CoveredThere(a, table, s, p, p + 1);
      LowerUncovered(table, s, p + 1);
    }
  }

  // ---- the regular expression, letter by letter ---------------------------------------------------

  /** Not a lower-case letter: the end, a capital, a digit. */
  predicate WordEnds(s: string, q: nat) {
    q >= |s| || !('a' <= s[q] <= 'z')
  }

  /** An occurrence: the acronym's capital and its other letters in lower case, then the end of the
      word, or a plural s and the end of the word. */
  lemma {:induction false} OccurrenceIs(a: Acronym, s: string, p: nat)
    ensures MatchesAt(a, s, p) <==>
      && p + |a| <= |s| && s[p] == a[0]
      && (forall i | 1 <= i < |a| :: 'a' <= s[p + i] <= 'z' && s[p + i] as int == a[i] as int + 32)
      && (WordEnds(s, p + |a|) || (s[p + |a|] == 's' && WordEnds(s, p + |a| + 1)))
  {
    if p + |a| <= |s| {
      var found := s[p..p + |a|];
      assert found == TitleCase(a) <==> forall i | 0 <= i < |a| :: found[i] == TitleCase(a)[i];
      assert forall i | 0 <= i < |a| :: found[i] == s[p + i];
      if s[p] == a[0] && forall i | 1 <= i < |a| :: 'a' <= s[p + i] <= 'z' && s[p + i] as int == a[i] as int + 32 {
        forall i | 0 <= i < |a| ensures found[i] == TitleCase(a)[i] {
        }
      }
    }
  }

  /** The pass keeps the length and every position outside occurrences; inside one, lower-case
      letters become their capitals. */
  lemma {:induction false} RaisedAt(table: seq<Acronym>, s: string, i: nat)
    requires i < |s|
    ensures var c := UpperCovered(table, s)[i];
      if 'a' <= s[i] <= 'z' && exists a, p: nat :: a in table && p <= i < p + |a| && MatchesAt(a, s, p)
      then c as int == s[i] as int - 32
      else c == s[i]
  {
    if a, p: nat :| a in table && p <= i < p + |a| && MatchesAt(a, s, p) {
      assert Covered(a, s, i);
    } else if CoveredBy(table, s, i) {
      var b, m := Occurrence(table, s, i);
      assert false;
    }
  }
}
