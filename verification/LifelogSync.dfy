/** What a phone sends is what a query for its day gives back. */
module LifelogSync {
  import opened Wrappers
  import opened Calendar
  import opened DayWindow
  import opened LifelogStore

  // ---- storing ------------------------------------------------------------------------------------

  lemma {:induction false} KeysIn(rows: seq<Row>, row: Row)
    ensures HasKey(rows, row) <==> exists r | r in rows :: SameKey(r, row)
  {
    if HasKey(rows, row) {
      var i :| 0 <= i < |rows| && SameKey(rows[i], row);
      assert rows[i] in rows;
    }
  }

  /** The key of the i-th row was not stored before, nor sent before it. */
  predicate NewKey(rows: seq<Row>, added: seq<Row>, i: nat)
    requires i < |added|
  {
    !HasKey(rows, added[i]) && !HasKey(added[..i], added[i])
  }

  /** A row with a new key is stored as it was sent, right behind what was stored before it. */
  lemma {:induction false} StoredAsSent(rows: seq<Row>, added: seq<Row>, i: nat)
    requires i < |added| && NewKey(rows, added, i)
    ensures var k := |InsertAll(rows, added[..i])|;
      k < |InsertAll(rows, added)| && InsertAll(rows, added)[k] == added[i]
    decreases added
  {
    var next := InsertOrIgnore(rows, added[0]);
    if i == 0 {
      assert added[..0] == [];
      InsertAllGrows(next, added[1..]);
      assert next[|rows|] == added[0];
    } else {
      assert added[..i][0] == added[0] && added[..i][1..] == added[1..][..i - 1];
      StillNew(rows, added, i);
      StoredAsSent(next, added[1..], i - 1);
    }
  }

  lemma {:induction false} StillNew(rows: seq<Row>, added: seq<Row>, i: nat)
    requires 0 < i < |added| && NewKey(rows, added, i)
    ensures NewKey(InsertOrIgnore(rows, added[0]), added[1..], i - 1)
  {
    var row := added[i];
    assert added[1..][i - 1] == row;
    KeysIn(rows, row);
    KeysIn(InsertOrIgnore(rows, added[0]), row);
    KeysIn(added[..i], row);
    KeysIn(added[1..][..i - 1], row);
    assert added[..i][0] == added[0];
    forall r | r in added[1..][..i - 1] ensures r in added[..i] {
      var j :| 0 <= j < i - 1 && added[1..][j] == r;
      assert added[..i][j + 1] == r;
    }
  }

  lemma {:induction false} InsertAllGrows(rows: seq<Row>, added: seq<Row>)
    ensures rows <= InsertAll(rows, added)
    decreases added
  {
    if added != [] {
      InsertAllGrows(InsertOrIgnore(rows, added[0]), added[1..]);
    }
  }

  /** Nothing is stored but what was there and what was sent with a key that was not taken. */
  lemma {:induction false} NothingElseStored(rows: seq<Row>, added: seq<Row>, row: Row)
    requires row in InsertAll(rows, added)
    ensures row in rows || (row in added && !HasKey(rows, row))
    decreases added
  {
    if added != [] {
      var next := InsertOrIgnore(rows, added[0]);
      NothingElseStored(next, added[1..], row);
      KeysIn(rows, row);
      KeysIn(next, row);
    }
  }

  // ---- and asking for the day ---------------------------------------------------------------------

  lemma {:induction false} RowOfItem(rows: seq<Row>, device: string, items: seq<Item>, i: nat)
    requires AllRowsOf(rows, device, items) && i < |items|
    ensures RowOf(rows[i], device, items[i])
  {
    if i > 0 {
      RowOfItem(rows[1..], device, items[1..], i - 1);
    }
  }

  /** An item sent under a new key is selected for exactly the Korean day of its instant. */
  lemma {:induction false} SentIsSelected(stored: seq<Row>, device: string, items: seq<Item>, i: nat, day: Date)
    requires AllValid(items) && RowsOf(device, items).Some? && i < |items|
    requires NewKey(stored, RowsOf(device, items).value, i)
    requires ValidDate(day) && DayBounds(day).Some?
    ensures var sent := RowsOf(device, items).value;
      && RowOf(sent[i], device, items[i])
      && (sent[i] in RowsForDay(InsertAll(stored, sent), device, day).value
          <==> KoreanDay(UtcOf(items[i].at)) == Ordinal(day))
  {
    var sent := RowsOf(device, items).value;
    RowsAreStamped(device, items);
    RowOfItem(sent, device, items, i);
    StoredAsSent(stored, sent, i);
    RecordsOfDay(InsertAll(stored, sent), device, day, sent[i], UtcOf(items[i].at));
  }

  // ---- each row once ------------------------------------------------------------------------------

  lemma {:induction false} SelectCounts(rows: seq<Row>, device: string, w: Window, row: Row)
    ensures multiset(Select(rows, device, w))[row] ==
            if row.device == device && DayWindow.Within(row.stamp, w) then multiset(rows)[row] else 0
  {
    if rows != [] {
      SelectCounts(rows[1..], device, w, row);
      assert rows == [rows[0]] + rows[1..];
    }
  }

  /** A query gives each selected row as often as it is stored. */
  lemma {:induction false} SelectedOnce(rows: seq<Row>, device: string, day: Date, row: Row)
    requires ValidDate(day) && DayBounds(day).Some? && row in RowsForDay(rows, device, day).value
    ensures multiset(RowsForDay(rows, device, day).value)[row] == multiset(rows)[row]
  {
    var w := DayBounds(day).value;
    ByStampKeeps(Select(rows, device, w));
    SelectCounts(rows, device, w, row);
    assert row in multiset(RowsForDay(rows, device, day).value);
  }
}
