/** The lifelog tables: what syncing stores, and what the query for a day selects. */
module LifelogStore {
  import opened Wrappers
  import opened Calendar
  import opened DayWindow

  /** A stored record or photo; the key is the device and the client's own id. */
  datatype Row = Row(device: string, clientId: string, content: string, stamp: string)

  /** What a phone sends. */
  datatype Item = Item(clientId: string, content: string, at: Aware)

  predicate SameKey(a: Row, b: Row) {
    a.device == b.device && a.clientId == b.clientId
  }

  predicate HasKey(rows: seq<Row>, row: Row) {
    exists i | 0 <= i < |rows| :: SameKey(rows[i], row)
  }

  // ---- storing ------------------------------------------------------------------------------------

  /** A row whose key is taken is ignored. */
  function InsertOrIgnore(rows: seq<Row>, row: Row): seq<Row> {
    if HasKey(rows, row) then rows else rows + [row]
  }

  /** A row whose key is taken replaces the old one. */
  function Upsert(rows: seq<Row>, row: Row): seq<Row> {
    if rows == [] then [row]
    else if SameKey(rows[0], row) then [row] + rows[1..]
    else [rows[0]] + Upsert(rows[1..], row)
  }

  predicate AllValid(items: seq<Item>) {
    items == [] || (ValidAware(items[0].at) && AllValid(items[1..]))
  }

  /** The rows of the items; None where a timestamp has no UTC text. */
  function RowsOf(device: string, items: seq<Item>): (r: Option<seq<Row>>)
    requires AllValid(items)
    ensures r.Some? ==> |r.value| == |items|
  {
    if items == [] then Some([])
    else
      var stamp :- Iso(items[0].at);
      var more :- RowsOf(device, items[1..]);
      Some([Row(device, items[0].clientId, items[0].content, stamp)] + more)
  }

  function InsertAll(rows: seq<Row>, added: seq<Row>): seq<Row>
    decreases added
  {
    if added == [] then rows else InsertAll(InsertOrIgnore(rows, added[0]), added[1..])
  }

  predicate UniqueKeys(rows: seq<Row>) {
    forall i, j | 0 <= i < j < |rows| :: !SameKey(rows[i], rows[j])
  }

  /** The stamp is the text of the instant. */
  predicate StampedAt(row: Row, t: Instant) {
    InRange(t) && row.stamp == IsoInstant(t)
  }

  /** The row is the item's, stamped with the text of its instant. */
  predicate RowOf(row: Row, device: string, item: Item) {
    row.device == device && row.clientId == item.clientId && row.content == item.content
    && ValidAware(item.at) && StampedAt(row, UtcOf(item.at))
  }

  predicate AllRowsOf(rows: seq<Row>, device: string, items: seq<Item>) {
    |rows| == |items|
    && (items == [] || (RowOf(rows[0], device, items[0]) && AllRowsOf(rows[1..], device, items[1..])))
  }

  lemma {:induction false} RowsAreStamped(device: string, items: seq<Item>)
    requires AllValid(items) && RowsOf(device, items).Some?
    ensures AllRowsOf(RowsOf(device, items).value, device, items)
  {
    if items != [] {
      RowsAreStamped(device, items[1..]);
      var rows := RowsOf(device, items).value;
      assert rows[1..] == RowsOf(device, items[1..]).value;
      FirstStamped(rows[0], device, items[0]);
    }
  }

  lemma {:induction false} FirstStamped(row: Row, device: string, item: Item)
    requires ValidAware(item.at) && Iso(item.at).Some? && row == Row(device, item.clientId, item.content, Iso(item.at).value)
    ensures RowOf(row, device, item)
  {
  }

  /** Syncing again changes nothing that is stored: the first version of a record stays, in
      its place, and every record sent is there. */
  lemma {:induction false} InsertAllKeeps(rows: seq<Row>, added: seq<Row>)
    requires UniqueKeys(rows)
    ensures rows <= InsertAll(rows, added) && UniqueKeys(InsertAll(rows, added))
    ensures forall i | 0 <= i < |added| :: HasKey(InsertAll(rows, added), added[i])
    decreases added
  {
    if added != [] {
      var next := InsertOrIgnore(rows, added[0]);
      InsertOneKeeps(rows, added[0]);
      InsertAllKeeps(next, added[1..]);
      forall i | 0 <= i < |added| ensures HasKey(InsertAll(rows, added), added[i]) {
        if i == 0 {
          KeyStays(next, InsertAll(rows, added), added[0]);
        } else {
          assert added[i] == added[1..][i - 1];
        }
      }
    }
  }

  lemma {:induction false} InsertOneKeeps(rows: seq<Row>, row: Row)
    requires UniqueKeys(rows)
    ensures UniqueKeys(InsertOrIgnore(rows, row)) && HasKey(InsertOrIgnore(rows, row), row)
  {
    if !HasKey(rows, row) {
      assert SameKey((rows + [row])[|rows|], row);
    }
  }

  lemma {:induction false} KeyStays(rows: seq<Row>, more: seq<Row>, row: Row)
    requires rows <= more && HasKey(rows, row)
    ensures HasKey(more, row)
  {
    var i :| 0 <= i < |rows| && SameKey(rows[i], row);
    assert SameKey(more[i], row);
  }

  /** Storing the same items a second time changes nothing. */
  lemma {:induction false} InsertAllTwice(rows: seq<Row>, added: seq<Row>)
    requires forall i | 0 <= i < |added| :: HasKey(rows, added[i])
    ensures InsertAll(rows, added) == rows
    decreases added
  {
    if added != [] {
      assert HasKey(rows, added[0]);
      forall i | 0 <= i < |added[1..]| ensures HasKey(rows, added[1..][i]) {
        assert added[1..][i] == added[i + 1];
      }
      InsertAllTwice(rows, added[1..]);
    }
  }

  /** Replacing keeps every other row, and keys stay unique. */
  lemma {:induction false} UpsertKeeps(rows: seq<Row>, row: Row, other: Row)
    requires UniqueKeys(rows)
    ensures other in Upsert(rows, row) <==> other == row || (other in rows && !SameKey(other, row))
  {
    if rows != [] {
      assert UniqueKeys(rows[1..]);
      if SameKey(rows[0], row) {
        forall i | 0 <= i < |rows[1..]| ensures !SameKey(rows[1..][i], row) {
          assert !SameKey(rows[0], rows[i + 1]);
        }
      } else {
        UpsertKeeps(rows[1..], row, other);
      }
    }
  }

  lemma {:induction false} UpsertUnique(rows: seq<Row>, row: Row)
    requires UniqueKeys(rows)
    ensures UniqueKeys(Upsert(rows, row))
  {
    if rows != [] {
      var after := Upsert(rows, row);
      assert UniqueKeys(rows[1..]);
      if !SameKey(rows[0], row) {
        UpsertUnique(rows[1..], row);
        forall i | 0 <= i < |after[1..]| ensures !SameKey(rows[0], after[1..][i]) {
          UpsertKeeps(rows[1..], row, after[1..][i]);
        }
        assert after[0] == rows[0] && after[1..] == Upsert(rows[1..], row);
      } else {
        assert after == [row] + rows[1..];
        forall i, j | 0 <= i < j < |after| ensures !SameKey(after[i], after[j]) {
          assert !SameKey(rows[i], rows[j]);
        }
      }
    }
  }

  // ---- querying -----------------------------------------------------------------------------------

  function Select(rows: seq<Row>, device: string, w: Window): seq<Row> {
    if rows == [] then []
    else (if rows[0].device == device && DayWindow.Within(rows[0].stamp, w) then [rows[0]] else []) + Select(rows[1..], device, w)
  }

  /** Insertion by stamp, after equal ones. */
  function Place(row: Row, rows: seq<Row>): seq<Row> {
    if rows == [] || Less(row.stamp, rows[0].stamp) then [row] + rows else [rows[0]] + Place(row, rows[1..])
  }

  function ByStamp(rows: seq<Row>): seq<Row> {
    if rows == [] then [] else Place(rows[|rows| - 1], ByStamp(rows[..|rows| - 1]))
  }

  /** The rows of one device on one Korean day; None: the day has no bounds. */
  function RowsForDay(rows: seq<Row>, device: string, day: Date): Option<seq<Row>>
    requires ValidDate(day)
  {
    var w :- DayBounds(day);
    Some(ByStamp(Select(rows, device, w)))
  }

  lemma {:induction false} SelectHas(rows: seq<Row>, device: string, w: Window, row: Row)
    ensures row in Select(rows, device, w) <==> row in rows && row.device == device && DayWindow.Within(row.stamp, w)
  {
    if rows != [] {
      SelectHas(rows[1..], device, w, row);
    }
  }

  lemma {:induction false} PlaceKeeps(row: Row, rows: seq<Row>)
    ensures multiset(Place(row, rows)) == multiset(rows) + multiset{row}
  {
    if rows != [] && !Less(row.stamp, rows[0].stamp) {
      PlaceKeeps(row, rows[1..]);
      assert rows == [rows[0]] + rows[1..];
    }
  }

  lemma {:induction false} ByStampKeeps(rows: seq<Row>)
    ensures multiset(ByStamp(rows)) == multiset(rows)
  {
    if rows != [] {
      var last := |rows| - 1;
      ByStampKeeps(rows[..last]);
      PlaceKeeps(rows[last], ByStamp(rows[..last]));
      assert rows == rows[..last] + [rows[last]];
    }
  }

  /** The query for a day selects exactly the device's records whose instant lies on that
      Korean day. */
  lemma {:induction false} RecordsOfDay(rows: seq<Row>, device: string, day: Date, row: Row, t: Instant)
    requires ValidDate(day) && DayBounds(day).Some? && StampedAt(row, t)
    ensures row in RowsForDay(rows, device, day).value
       <==> row in rows && row.device == device && KoreanDay(t) == Ordinal(day)
  {
    var w := DayBounds(day).value;
    var selected := Select(rows, device, w);
    ByStampKeeps(selected);
    assert row in ByStamp(selected) <==> row in multiset(ByStamp(selected));
    SelectHas(rows, device, w, row);
    WindowIsDay(day, t);
  }

  predicate Ascending(rows: seq<Row>) {
    |rows| <= 1 || (!Less(rows[1].stamp, rows[0].stamp) && Ascending(rows[1..]))
  }

  lemma {:induction false} PlaceAscends(row: Row, rows: seq<Row>)
    requires Ascending(rows)
    ensures Ascending(Place(row, rows))
  {
    if rows == [] || Less(row.stamp, rows[0].stamp) {
      if rows != [] {
        LessAsymmetric(row.stamp, rows[0].stamp);
      }
      assert ([row] + rows)[1..] == rows;
    } else {
      PlaceAscends(row, rows[1..]);
      assert Place(row, rows)[1..] == Place(row, rows[1..]);
    }
  }

  lemma {:induction false} ByStampAscends(rows: seq<Row>)
    ensures Ascending(ByStamp(rows))
  {
    if rows != [] {
      ByStampAscends(rows[..|rows| - 1]);
      PlaceAscends(rows[|rows| - 1], ByStamp(rows[..|rows| - 1]));
    }
  }

  lemma {:induction false} NotLessTransitive(a: string, b: string, c: string)
    requires !Less(b, a) && !Less(c, b)
    ensures !Less(c, a)
  {
    if a != [] && b != [] && c != [] && a[0] == b[0] == c[0] {
      NotLessTransitive(a[1..], b[1..], c[1..]);
    }
  }

  lemma {:induction false} AscendingPair(rows: seq<Row>, i: nat, j: nat)
    requires Ascending(rows) && i < j < |rows|
    ensures !Less(rows[j].stamp, rows[i].stamp)
    decreases i + j
  {
    if i > 0 {
      AscendingPair(rows[1..], i - 1, j - 1);
    } else if j > 1 {
      AscendingPair(rows[1..], 0, j - 1);
      NotLessTransitive(rows[0].stamp, rows[1].stamp, rows[j].stamp);
    }
  }

  lemma {:induction false} PairInOrder(a: Row, b: Row, s: Instant, t: Instant)
    requires StampedAt(a, s) && StampedAt(b, t) && !Less(b.stamp, a.stamp)
    ensures s <= t
  {
    TextOrderIsTimeOrder(t, s);
  }

  /** The selected records come in the order of their instants. */
  lemma {:induction false} RecordsInOrder(rows: seq<Row>, device: string, day: Date, i: nat, j: nat, s: Instant, t: Instant)
    requires ValidDate(day) && DayBounds(day).Some?
    requires i < j < |RowsForDay(rows, device, day).value|
    requires StampedAt(RowsForDay(rows, device, day).value[i], s) && StampedAt(RowsForDay(rows, device, day).value[j], t)
    ensures s <= t
  {
    var found := RowsForDay(rows, device, day).value;
    SelectedAscend(Select(rows, device, DayBounds(day).value), i, j);
    PairInOrder(found[i], found[j], s, t);
  }

  lemma {:induction false} SelectedAscend(rows: seq<Row>, i: nat, j: nat)
    requires i < j < |ByStamp(rows)|
    ensures !Less(ByStamp(rows)[j].stamp, ByStamp(rows)[i].stamp)
  {
    ByStampAscends(rows);
    AscendingPair(ByStamp(rows), i, j);
  }

  // ---- the server ---------------------------------------------------------------------------------

  class Store {
    var records: seq<Row>
    var photos: seq<Row>

    ghost predicate Valid()
      reads this
    {
      UniqueKeys(records) && UniqueKeys(photos)
    }

    constructor ()
      ensures Valid() && records == photos == []
    {
      records, photos := [], [];
    }

    /** Stores a phone's records; false: a timestamp was out of range and nothing is stored. */
    method SyncLifelog(device: string, items: seq<Item>) returns (ok: bool)
      requires Valid() && AllValid(items)
      modifies this`records
      ensures Valid() && ok == RowsOf(device, items).Some?
      ensures records == if ok then InsertAll(old(records), RowsOf(device, items).value) else old(records)
    {
      var rows := RowsOf(device, items);
      if rows.None? {
        return false;
      }
      InsertAllKeeps(records, rows.value);
      for i := 0 to |rows.value|
        invariant InsertAll(records, rows.value[i..]) == InsertAll(old(records), rows.value)
      {
        assert rows.value[i..][0] == rows.value[i] && rows.value[i..][1..] == rows.value[i + 1..];
        if !HasKey(records, rows.value[i]) {
          records := records + [rows.value[i]];
        }
      }
      ok := true;
    }

    method SyncPhoto(device: string, item: Item) returns (ok: bool)
      requires Valid() && ValidAware(item.at)
      modifies this`photos
      ensures Valid() && ok == Iso(item.at).Some?
      ensures photos ==
        if ok then Upsert(old(photos), Row(device, item.clientId, item.content, Iso(item.at).value)) else old(photos)
    {
      var stamp := Iso(item.at);
      ok := stamp.Some?;
      if ok {
        var row := Row(device, item.clientId, item.content, stamp.value);
        UpsertUnique(photos, row);
        photos := Upsert(photos, row);
      }
    }
  }
}
