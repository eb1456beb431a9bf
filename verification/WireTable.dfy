/** The acronym table of `wire-naming.ts`, and the functions that use it. */
module WireTable {
  import opened Wrappers
  import opened WireNaming

  // The table, in its order, in five pieces.
  const ACRONYMS_1: seq<Acronym> := ["SNTPNTS", "NTPNTS", "BLEUWB", "HVAC", "ICAC", "DAC", "MAC", "EVSE", "RFID", "PIR"]
  const ACRONYMS_2: seq<Acronym> := ["IPV", "ANSI", "BDX", "BLE", "CEC", "CO", "CSR", "DNS", "DST", "ESA"]
  const ACRONYMS_3: seq<Acronym> := ["EV", "GHG", "ICD", "IEC", "IP", "LED", "MLE", "NFC", "NOC", "SNTP"]
  const ACRONYMS_4: seq<Acronym> := ["NTP", "OTA", "PAI", "PHY", "PIN", "PI", "PV", "PAKE", "IPK", "LQI"]
  const ACRONYMS_5: seq<Acronym> := ["URI", "RF", "RMS", "UTC", "TC", "URL", "UWB", "VID", "AC", "ID"]

  const ACRONYMS: seq<Acronym> := ACRONYMS_1 + ACRONYMS_2 + ACRONYMS_3 + ACRONYMS_4 + ACRONYMS_5

  lemma {:induction false} NoTwoLetterS(a: Acronym)
    requires a in ACRONYMS
    ensures GoodAcronym(a)
  {
  }

  lemma {:induction false} EntriesInS(a: Acronym)
    requires a in ACRONYMS && a[|a| - 1] == 'S'
    ensures a == "SNTPNTS" || a == "NTPNTS" || a == "DNS" || a == "RMS"
  {
  }

  lemma {:induction false} LongSingularsAbsent()
    ensures "SNTPNT" !in ACRONYMS && "NTPNT" !in ACRONYMS
  {
  }

  lemma {:induction false} ShortSingularsAbsent()
    ensures "DN" !in ACRONYMS && "RM" !in ACRONYMS
  {
  }

  lemma {:induction false} NoPlurals(a: Acronym, b: Acronym)
    requires a in ACRONYMS && b in ACRONYMS
    ensures !IsPlural(a, b)
  {
    if IsPlural(a, b) {
      assert a[|a| - 1] == 'S' && b == a[..|a| - 1];
      EntriesInS(a);
      assert b == "SNTPNT" || b == "NTPNT" || b == "DN" || b == "RM";
      LongSingularsAbsent();
      ShortSingularsAbsent();
    }
  }

  /** The table meets the condition, so the order of its entries does not matter. */
  lemma {:induction false} TableIsGood()
    ensures GoodTable(ACRONYMS)
  {
    forall a | a in ACRONYMS
      ensures GoodAcronym(a)
    {
      NoTwoLetterS(a);
    }
    forall a, b | a in ACRONYMS && b in ACRONYMS
      ensures !IsPlural(a, b)
    {
      NoPlurals(a, b);
    }
  }

  /** name.charAt(0).toLowerCase() + name.slice(1) */
  function LowerFirst(s: string): string {
    if s == [] then [] else [ToLower(s[0])] + s[1..]
  }

  predicate StartsWithTwoCapitals(s: string) {
    |s| >= 2 && IsUpper(s[0]) && IsUpper(s[1])
  }

  /** The module's state: names already converted. */
  class ChipNames {
    var cache: map<string, string>
    const overrides: map<string, string>

    ghost predicate Valid()
      reads this
    {
      forall name | name in cache :: cache[name] == UpperCovered(ACRONYMS, name)
    }

    constructor (overrides: map<string, string>)
      ensures Valid() && this.overrides == overrides
    {
      cache := map[];
      this.overrides := overrides;
    }

    /** toChipName: cached, or the loop of replaces; either way the simultaneous pass. */
    method ToChipName(name: string) returns (r: string)
      requires Valid()
      modifies this`cache
      ensures Valid() && r == UpperCovered(ACRONYMS, name)
      ensures cache == old(cache)[name := r]
    {
      if name in cache {
        assert cache[name := cache[name]] == cache;
        return cache[name];
      }
      TableIsGood();
      SequentialIsSimultaneous(ACRONYMS, name);
      r := name;
      assert ACRONYMS[0..] == ACRONYMS;
      for k := 0 to |ACRONYMS|
        invariant cache == old(cache)
        invariant Rewrite(ACRONYMS, name) == Rewrite(ACRONYMS[k..], r)
      {
        RewriteOne(ACRONYMS, k, r);
        r := Replace(ACRONYMS[k], r);
      }
      cache := cache[name := r];
    }

    /** matterNameToWireField: overrides first, by cluster and then by name. */
    method MatterNameToWireField(name: string, clusterName: Option<string>) returns (r: string)
      requires Valid()
      modifies this`cache
      ensures Valid()
      ensures var qualified := if clusterName.Some? then clusterName.value + "." + name else "";
              var hasCluster := clusterName.Some? && clusterName.value != "";
              if hasCluster && qualified in overrides then r == overrides[qualified]
              else if name in overrides then r == overrides[name]
              else
                var chip := UpperCovered(ACRONYMS, name);
                var twoCapitals := |name| >= 2 && 'A' <= chip[0] <= 'Z' && 'A' <= chip[1] <= 'Z';
                && Lowered(r) == Lowered(name) && |r| == |name|
                && (forall i | 0 < i < |r| :: r[i] == chip[i])
                && (|r| > 0 ==>
                      if !twoCapitals && 'A' <= chip[0] <= 'Z' then r[0] as int == chip[0] as int + 32
                      else r[0] == chip[0])
    {
      if clusterName.Some? && clusterName.value != "" {
        var qualified := clusterName.value + "." + name;
        if qualified in overrides { return overrides[qualified]; }
      }
      if name in overrides { return overrides[name]; }
      var chip := ToChipName(name);
      TableIsGood();
      LettersKept(ACRONYMS, name);
      SequentialIsSimultaneous(ACRONYMS, name);
      if StartsWithTwoCapitals(chip) { return chip; }
      LowerFirstKeeps(chip);
      return LowerFirst(chip);
    }
  }

  lemma {:induction false} RewriteOne(table: seq<Acronym>, k: nat, s: string)
    requires k < |table|
    ensures Rewrite(table[k..], s) == Rewrite(table[k + 1..], Replace(table[k], s))
  {
    assert table[k..][1..] == table[k + 1..];
  }

  lemma {:induction false} LowerFirstKeeps(s: string)
    ensures Lowered(LowerFirst(s)) == Lowered(s)
  {
  }

  // ---- a name ------------------------------------------------------------------------------------

  lemma {:induction false} OnlyVid(a: Acronym)
    requires a in ACRONYMS && a[0] == 'V'
    ensures a == "VID"
  {
  }

  lemma {:induction false} OnlySn(a: Acronym)
    requires a in ACRONYMS && a[0] == 'S'
    ensures a[1] == 'N'
  {
  }

  lemma {:induction false} OnlyId(a: Acronym)
    requires a in ACRONYMS && a[0] == 'I' && a[1] == 'D'
    ensures a == "ID"
  {
  }

  const NAME: string := "VideoStreamId"

  /** An occurrence starts at one of the capitals of the name. */
  lemma {:induction false} AtCapital(a: Acronym, p: nat)
    requires MatchesAt(a, NAME, p)
    ensures p == 0 || p == 5 || p == 11
    ensures p == 0 ==> a[0] == 'V' && a != "VID"
    ensures p == 5 ==> a[0] == 'S' && a[1] == 'T'
    ensures p == 11 ==> a[0] == 'I' && a[1] == 'D'
  {
    OccurrenceIs(a, NAME, p);
    assert 'A' <= NAME[p] <= 'Z' && NAME[p + 1] as int == a[1] as int + 32;
  }

  /** "Vid" goes on with a lower-case letter, "Id" ends the name. */
  lemma {:induction false} IdOnly(a: Acronym, p: nat)
    requires a in ACRONYMS && MatchesAt(a, NAME, p)
    ensures a == "ID" && p == 11
  {
    AtCapital(a, p);
    if p == 0 {
      OnlyVid(a);
    } else if p == 5 {
      OnlySn(a);
    } else {
      OnlyId(a);
    }
  }

  lemma {:induction false} IdListed()
    ensures "ID" in ACRONYMS
  {
    assert "ID" in ACRONYMS_5;
  }

  lemma {:induction false} IdThere()
    ensures MatchesAt("ID", NAME, 11)
  {
    OccurrenceIs("ID", NAME, 11);
  }

  ghost predicate InOccurrence(table: seq<Acronym>, i: nat) {
    exists a, p: nat :: a in table && p <= i < p + |a| && MatchesAt(a, NAME, p)
  }

  /** Exactly the last two letters are covered. */
  lemma {:induction false} IdCovered(i: nat)
    ensures InOccurrence(ACRONYMS, i) <==> 11 <= i < 13
  {
    if a, p: nat :| a in ACRONYMS && p <= i < p + |a| && MatchesAt(a, NAME, p) {
      IdOnly(a, p);
    }
    IdListed();
    IdThere();
  }

  lemma {:induction false} LastTwoRaised(table: seq<Acronym>, i: nat)
    requires i < |NAME| && (InOccurrence(table, i) <==> 11 <= i < 13)
    ensures UpperCovered(table, NAME)[i] == "VideoStreamID"[i]
  {
    RaisedAt(table, NAME, i);
  }

  lemma {:induction false} VideoStreamId()
    ensures UpperCovered(ACRONYMS, "VideoStreamId") == "VideoStreamID"
  {
    forall i | 0 <= i < |NAME| ensures UpperCovered(ACRONYMS, NAME)[i] == "VideoStreamID"[i] {
      IdCovered(i);
      LastTwoRaised(ACRONYMS, i);
    }
  }
}
