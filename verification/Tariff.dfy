/** The tariff's days on one time axis, where a price range ends, and a day's schedule. */
module Tariff {
  import opened Wrappers
  import opened DecimalText

  const MINUTES_PER_DAY: int := 1440
  const MAX_DAY_MINUTES: int := 1500

  datatype DayEntry = DayEntry(id: int, startMinutes: int, durationMinutes: Option<int>)

  datatype Day = Day(dayEntryIds: seq<int>)

  /** A period's index is its place in the list of periods. */
  datatype Period = Period(index: nat, dayEntryIds: seq<int>)

  // ---- a day's entries ------------------------------------------------------------------------

  function Find(entries: seq<DayEntry>, id: int): Option<DayEntry> {
    if entries == [] then None else if entries[0].id == id then Some(entries[0]) else Find(entries[1..], id)
  }

  /** The described entries of the ids, in their order. */
  function Described(ids: seq<int>, entries: seq<DayEntry>): seq<DayEntry> {
    if ids == [] then []
    else
      var entry := Find(entries, ids[0]);
      (if entry.Some? then [entry.value] else []) + Described(ids[1..], entries)
  }

  /** Insertion before later entries; entries of one start keep their order. */
  function Insert(e: DayEntry, es: seq<DayEntry>): seq<DayEntry> {
    if es == [] || e.startMinutes <= es[0].startMinutes then [e] + es else [es[0]] + Insert(e, es[1..])
  }

  function SortByStart(es: seq<DayEntry>): seq<DayEntry> {
    if es == [] then [] else Insert(es[0], SortByStart(es[1..]))
  }

  function OrderedDayEntries(day: Option<Day>, entries: seq<DayEntry>): seq<DayEntry> {
    if day.None? then [] else SortByStart(Described(day.value.dayEntryIds, entries))
  }

  predicate Ascending(es: seq<DayEntry>) {
    forall i, j | 0 <= i < j < |es| :: es[i].startMinutes <= es[j].startMinutes
  }

  /** Starts on a day of at most 25 hours. */
  predicate OnAxis(es: seq<DayEntry>) {
    forall e | e in es :: 0 <= e.startMinutes < MAX_DAY_MINUTES
  }

  lemma {:induction false} InsertKeeps(e: DayEntry, es: seq<DayEntry>)
    ensures forall x :: x in Insert(e, es) <==> x == e || x in es
    ensures Ascending(es) ==> Ascending(Insert(e, es))
  {
    if es != [] && e.startMinutes > es[0].startMinutes {
      InsertKeeps(e, es[1..]);
      var r := Insert(e, es);
      assert r[0] == es[0] && r[1..] == Insert(e, es[1..]);
      if Ascending(es) {
        forall i, j | 0 <= i < j < |r| ensures r[i].startMinutes <= r[j].startMinutes {
          assert r[j] == r[1..][j - 1];
          if i == 0 {
            assert r[j] in Insert(e, es[1..]);
          } else {
            assert r[i] == r[1..][i - 1];
          }
        }
      }
    }
  }

  lemma {:induction false} SortKeeps(es: seq<DayEntry>)
    ensures forall x :: x in SortByStart(es) <==> x in es
    ensures Ascending(SortByStart(es))
  {
    if es != [] {
      SortKeeps(es[1..]);
      InsertKeeps(es[0], SortByStart(es[1..]));
    }
  }

  lemma {:induction false} FindFinds(entries: seq<DayEntry>, id: int)
    ensures Find(entries, id).Some? ==> Find(entries, id).value in entries && Find(entries, id).value.id == id
  {
    if entries != [] {
      FindFinds(entries[1..], id);
    }
  }

  lemma {:induction false} DescribedAreEntries(ids: seq<int>, entries: seq<DayEntry>)
    ensures forall e | e in Described(ids, entries) :: e in entries && e.id in ids
  {
    if ids != [] {
      FindFinds(entries, ids[0]);
      DescribedAreEntries(ids[1..], entries);
    }
  }

  /** A day's entries are described ones in time order. */
  lemma {:induction false} DayEntriesInOrder(day: Option<Day>, entries: seq<DayEntry>)
    ensures Ascending(OrderedDayEntries(day, entries))
    ensures OnAxis(entries) ==> OnAxis(OrderedDayEntries(day, entries))
  {
    if day.Some? {
      DescribedAreEntries(day.value.dayEntryIds, entries);
      SortKeeps(Described(day.value.dayEntryIds, entries));
    }
  }

  // ---- periods --------------------------------------------------------------------------------

  function PeriodsOf(id: int, periods: seq<Period>): seq<Period> {
    if periods == [] then []
    else (if id in periods[0].dayEntryIds then [periods[0]] else []) + PeriodsOf(id, periods[1..])
  }

  function Join(periods: seq<Period>): string {
    if periods == [] then []
    else if |periods| == 1 then Digits(periods[0].index)
    else Digits(periods[0].index) + ([','] + Join(periods[1..]))
  }

  function PeriodKey(periods: seq<Period>): Option<string> {
    if periods == [] then None else Some(Join(periods))
  }

  lemma {:induction false} DigitsLackComma(n: nat)
    ensures Lacks(',', Digits(n))
  {
    DigitsOk(n);
  }

  /** The text of the indices tells lists of periods apart. */
  lemma {:induction false} JoinInjective(a: seq<Period>, b: seq<Period>)
    requires a != [] && b != [] && Join(a) == Join(b)
    ensures |a| == |b| && forall i | 0 <= i < |a| :: a[i].index == b[i].index
  {
    DigitsLackComma(a[0].index);
    DigitsLackComma(b[0].index);
    if |a| == 1 && |b| == 1 {
      DigitsInjective(a[0].index, b[0].index);
    } else if |a| == 1 {
      HasComma(Digits(b[0].index), Join(b[1..]));
    } else if |b| == 1 {
      HasComma(Digits(a[0].index), Join(a[1..]));
    } else {
      SplitAt(',', Digits(a[0].index), Join(a[1..]), Digits(b[0].index), Join(b[1..]));
      DigitsInjective(a[0].index, b[0].index);
      JoinInjective(a[1..], b[1..]);
      forall i | 0 <= i < |a| ensures a[i].index == b[i].index {
        if i > 0 {
          assert a[i] == a[1..][i - 1] && b[i] == b[1..][i - 1];
        }
      }
    }
  }

  lemma {:induction false} HasComma(x: string, y: string)
    ensures !Lacks(',', x + ([','] + y))
  {
    assert (x + ([','] + y))[|x|] == ',';
  }

  /** Periods numbered by their place. */
  predicate Numbered(periods: seq<Period>) {
    forall i | 0 <= i < |periods| :: periods[i].index == i
  }

  lemma {:induction false} PeriodsOfHas(id: int, periods: seq<Period>)
    ensures forall p | p in PeriodsOf(id, periods) :: p in periods
  {
    if periods != [] {
      PeriodsOfHas(id, periods[1..]);
    }
  }

  /** Lists of the same indices are the same. */
  lemma {:induction false} SameIndices(x: seq<Period>, y: seq<Period>, periods: seq<Period>)
    requires Numbered(periods) && |x| == |y|
    requires forall p | p in x :: p in periods
    requires forall p | p in y :: p in periods
    requires forall i | 0 <= i < |x| :: x[i].index == y[i].index
    ensures x == y
  {
    forall i | 0 <= i < |x| ensures x[i] == y[i] {
      assert x[i] in periods && y[i] in periods;
    }
  }

  /** Equal keys mean the same periods. */
  lemma {:induction false} KeyTellsPeriods(a: int, b: int, periods: seq<Period>)
    requires Numbered(periods)
    ensures PeriodKey(PeriodsOf(a, periods)) == PeriodKey(PeriodsOf(b, periods)) <==> PeriodsOf(a, periods) == PeriodsOf(b, periods)
  {
    var x, y := PeriodsOf(a, periods), PeriodsOf(b, periods);
    if PeriodKey(x) == PeriodKey(y) && x != [] {
      JoinInjective(x, y);
      PeriodsOfHas(a, periods);
      PeriodsOfHas(b, periods);
      SameIndices(x, y, periods);
    }
  }

  // ---- the timeline ---------------------------------------------------------------------------

  datatype Slot = Slot(entryId: int, startMinutes: int, periodKey: Option<string>)

  function DaySpanMinutes(es: seq<DayEntry>): int {
    var lastStart := if es == [] then 0 else es[|es| - 1].startMinutes;
    if lastStart >= MINUTES_PER_DAY then MAX_DAY_MINUTES else MINUTES_PER_DAY
  }

  function SlotOf(e: DayEntry, dayStart: int, periods: seq<Period>): Slot {
    Slot(e.id, e.startMinutes + dayStart, PeriodKey(PeriodsOf(e.id, periods)))
  }

  function SlotsOf(es: seq<DayEntry>, dayStart: int, periods: seq<Period>): (r: seq<Slot>)
    ensures |r| == |es|
  {
    if es == [] then [] else [SlotOf(es[0], dayStart, periods)] + SlotsOf(es[1..], dayStart, periods)
  }

  function Timeline(days: seq<Option<Day>>, entries: seq<DayEntry>, periods: seq<Period>, dayStart: int): seq<Slot> {
    if days == [] then []
    else
      var es := OrderedDayEntries(days[0], entries);
      SlotsOf(es, dayStart, periods) + Timeline(days[1..], entries, periods, dayStart + DaySpanMinutes(es))
  }

  method BuildTimeline(days: seq<Option<Day>>, entries: seq<DayEntry>, periods: seq<Period>) returns (timeline: seq<Slot>)
    ensures timeline == Timeline(days, entries, periods, 0)
    ensures OnAxis(entries) ==> InOrder(timeline)
  {
    timeline := [];
    var dayStartMinutes := 0;
    for i := 0 to |days|
      invariant timeline + Timeline(days[i..], entries, periods, dayStartMinutes) == Timeline(days, entries, periods, 0)
    {
      var es := OrderedDayEntries(days[i], entries);
      TimelineNext(days[i..], entries, periods, dayStartMinutes);
      assert days[i..][1..] == days[i + 1..];
      var next := dayStartMinutes + DaySpanMinutes(es);
      Associate(timeline, SlotsOf(es, dayStartMinutes, periods), Timeline(days[i + 1..], entries, periods, next));
      timeline := PushSlots(timeline, es, dayStartMinutes, periods);
      dayStartMinutes := next;
    }
    assert timeline + [] == timeline;
    if OnAxis(entries) {
      TimelineInOrder(days, entries, periods, 0);
    }
  }

  lemma {:induction false} Associate(a: seq<Slot>, b: seq<Slot>, c: seq<Slot>)
    ensures a + (b + c) == a + b + c
  {
  }

  lemma {:induction false} TimelineNext(days: seq<Option<Day>>, entries: seq<DayEntry>, periods: seq<Period>, dayStart: int)
    requires days != []
    ensures var es := OrderedDayEntries(days[0], entries);
      Timeline(days, entries, periods, dayStart)
      == SlotsOf(es, dayStart, periods) + Timeline(days[1..], entries, periods, dayStart + DaySpanMinutes(es))
  {
  }

  method PushSlots(before: seq<Slot>, es: seq<DayEntry>, dayStart: int, periods: seq<Period>) returns (timeline: seq<Slot>)
    ensures timeline == before + SlotsOf(es, dayStart, periods)
  {
    timeline := before;
    for i := 0 to |es|
      invariant timeline + SlotsOf(es[i..], dayStart, periods) == before + SlotsOf(es, dayStart, periods)
    {
      assert es[i..][0] == es[i] && es[i..][1..] == es[i + 1..];
      timeline := timeline + [SlotOf(es[i], dayStart, periods)];
    }
  }

  predicate InOrder(slots: seq<Slot>) {
    forall i, j | 0 <= i < j < |slots| :: slots[i].startMinutes <= slots[j].startMinutes
  }

  lemma {:induction false} SlotsAt(es: seq<DayEntry>, dayStart: int, periods: seq<Period>, i: nat)
    requires i < |es|
    ensures SlotsOf(es, dayStart, periods)[i] == SlotOf(es[i], dayStart, periods)
  {
    if i > 0 {
      SlotsAt(es[1..], dayStart, periods, i - 1);
    }
  }

  lemma {:induction false} SpanCovers(es: seq<DayEntry>, e: DayEntry)
    requires Ascending(es) && OnAxis(es) && e in es
    ensures e.startMinutes < DaySpanMinutes(es)
  {
    var last := es[|es| - 1];
    assert last in es;
    var i :| 0 <= i < |es| && es[i] == e;
    assert e.startMinutes <= last.startMinutes;
  }

  lemma {:induction false} TimelineFrom(days: seq<Option<Day>>, entries: seq<DayEntry>, periods: seq<Period>, dayStart: int)
    requires OnAxis(entries)
    ensures forall s | s in Timeline(days, entries, periods, dayStart) :: s.startMinutes >= dayStart
  {
    if days != [] {
      var es := OrderedDayEntries(days[0], entries);
      DayEntriesInOrder(days[0], entries);
      TimelineFrom(days[1..], entries, periods, dayStart + DaySpanMinutes(es));
      forall s | s in SlotsOf(es, dayStart, periods) ensures s.startMinutes >= dayStart {
        var i :| 0 <= i < |es| && SlotsOf(es, dayStart, periods)[i] == s;
        SlotsAt(es, dayStart, periods, i);
        assert es[i] in es;
      }
    }
  }

  /** Over days of 24 or 25 hours, the axis never runs backwards. */
  lemma {:induction false} TimelineInOrder(days: seq<Option<Day>>, entries: seq<DayEntry>, periods: seq<Period>,
                                           dayStart: int)
    requires OnAxis(entries)
    ensures InOrder(Timeline(days, entries, periods, dayStart))
  {
    if days != [] {
      var es := OrderedDayEntries(days[0], entries);
      var next := dayStart + DaySpanMinutes(es);
      DayEntriesInOrder(days[0], entries);
      TimelineInOrder(days[1..], entries, periods, next);
      TimelineFrom(days[1..], entries, periods, next);
      DayInOrder(es, dayStart, periods);
      OrderedJoin(SlotsOf(es, dayStart, periods), Timeline(days[1..], entries, periods, next), next);
    }
  }

  lemma {:induction false} DayInOrder(es: seq<DayEntry>, dayStart: int, periods: seq<Period>)
    requires Ascending(es) && OnAxis(es)
    ensures InOrder(SlotsOf(es, dayStart, periods))
    ensures forall s | s in SlotsOf(es, dayStart, periods) :: s.startMinutes <= dayStart + DaySpanMinutes(es)
  {
    var slots := SlotsOf(es, dayStart, periods);
    forall i, j | 0 <= i < j < |slots| ensures slots[i].startMinutes <= slots[j].startMinutes {
      SlotsAt(es, dayStart, periods, i);
      SlotsAt(es, dayStart, periods, j);
    }
    forall s | s in slots ensures s.startMinutes <= dayStart + DaySpanMinutes(es) {
      var i :| 0 <= i < |es| && slots[i] == s;
      SlotsAt(es, dayStart, periods, i);
      SpanCovers(es, es[i]);
    }
  }

  lemma {:induction false} OrderedJoin(a: seq<Slot>, b: seq<Slot>, between: int)
    requires InOrder(a) && InOrder(b)
    requires forall s | s in a :: s.startMinutes <= between
    requires forall s | s in b :: s.startMinutes >= between
    ensures InOrder(a + b)
  {
    forall i, j | 0 <= i < j < |a + b| ensures (a + b)[i].startMinutes <= (a + b)[j].startMinutes {
      if i < |a| {
        assert a[i] in a;
      }
      if j >= |a| {
        assert b[j - |a|] in b;
      }
    }
  }

  // ---- where a price range ends ---------------------------------------------------------------

  /** A strictly later slot with other periods. */
  predicate Ends(from: Slot, slot: Slot) {
    slot.startMinutes > from.startMinutes && slot.periodKey != from.periodKey
  }

  function EndAt(startEpoch: int, from: Slot, slot: Slot): int {
    startEpoch + (slot.startMinutes - from.startMinutes) * 60
  }

  /** The first later slot that ends the range. */
  predicate EndsFirst(timeline: seq<Slot>, position: nat, j: nat)
    requires position < j < |timeline|
  {
    Ends(timeline[position], timeline[j]) && forall k | position < k < j :: !Ends(timeline[position], timeline[k])
  }

  /** The end of the range that starts at the position: None if no later slot ends it, or if
      there is no such position. On a timeline in order it is the earliest later start,
      anywhere on the timeline, at which the periods differ. */
  method RangeEnd(startEpoch: int, timeline: seq<Slot>, position: int) returns (end: Option<int>)
    ensures !(0 <= position < |timeline|) ==> end.None?
    ensures 0 <= position < |timeline| ==>
      (end.None? <==> forall j | position < j < |timeline| :: !Ends(timeline[position], timeline[j]))
    ensures 0 <= position < |timeline| && end.Some? ==>
      exists j | position < j < |timeline| ::
        EndsFirst(timeline, position, j) && end.value == EndAt(startEpoch, timeline[position], timeline[j])
    ensures 0 <= position < |timeline| && InOrder(timeline) ==>
      forall j | 0 <= j < |timeline| && Ends(timeline[position], timeline[j]) ::
        end.Some? && end.value <= EndAt(startEpoch, timeline[position], timeline[j])
  {
    if !(0 <= position < |timeline|) {
      return None;
    }
    var from := timeline[position];
    for i := position + 1 to |timeline|
      invariant forall j | position < j < i :: !Ends(from, timeline[j])
    {
      var slot := timeline[i];
      if slot.startMinutes <= from.startMinutes {
        continue;
      }
      if slot.periodKey != from.periodKey {
        assert EndsFirst(timeline, position, i);
        return Some(EndAt(startEpoch, from, slot));
      }
    }
    return None;
  }

  /** The position of the next slot of the entry; -1 if there is none. */
  method FindSlot(timeline: seq<Slot>, entryId: int, afterPosition: int) returns (position: int)
    ensures position == -1 || (afterPosition < position < |timeline| && 0 <= position && timeline[position].entryId == entryId)
    ensures forall j | 0 <= j < |timeline| && afterPosition < j && (position == -1 || j < position) :: timeline[j].entryId != entryId
  {
    for i := 0 to |timeline|
      invariant forall j | 0 <= j < i && afterPosition < j :: timeline[j].entryId != entryId
    {
      if i > afterPosition && timeline[i].entryId == entryId {
        return i;
      }
    }
    return -1;
  }

  // ---- the current price range ------------------------------------------------------------------

  /** A strictly later slot whose list of periods differs. */
  predicate Changes(from: Slot, slot: Slot, periods: seq<Period>) {
    slot.startMinutes > from.startMinutes && PeriodsOf(slot.entryId, periods) != PeriodsOf(from.entryId, periods)
  }

  /** The end is the earliest strictly later start at which the list of periods differs; None:
      it never does. */
  predicate EarliestChange(timeline: seq<Slot>, from: Slot, periods: seq<Period>, startEpoch: int, end: Option<int>) {
    && (end.None? <==> forall slot | slot in timeline :: !Changes(from, slot, periods))
    && (end.Some? ==>
         && (exists slot | slot in timeline ::
               Changes(from, slot, periods) && end.value == startEpoch + (slot.startMinutes - from.startMinutes) * 60)
         && (forall slot | slot in timeline && Changes(from, slot, periods) ::
               end.value <= startEpoch + (slot.startMinutes - from.startMinutes) * 60))
  }

  predicate Keyed(slot: Slot, periods: seq<Period>) {
    slot.periodKey == PeriodKey(PeriodsOf(slot.entryId, periods))
  }

  lemma {:induction false} TimelineKeyed(days: seq<Option<Day>>, entries: seq<DayEntry>, periods: seq<Period>,
                                         dayStart: int)
    ensures forall slot | slot in Timeline(days, entries, periods, dayStart) :: Keyed(slot, periods)
  {
    if days != [] {
      var es := OrderedDayEntries(days[0], entries);
      forall slot | slot in SlotsOf(es, dayStart, periods) ensures Keyed(slot, periods) {
        var i :| 0 <= i < |es| && SlotsOf(es, dayStart, periods)[i] == slot;
        SlotsAt(es, dayStart, periods, i);
      }
      TimelineKeyed(days[1..], entries, periods, dayStart + DaySpanMinutes(es));
    }
  }

  /** On keyed slots, other keys mean other periods. */
  lemma {:induction false} EndsIsChange(from: Slot, slot: Slot, periods: seq<Period>)
    requires Keyed(from, periods) && Keyed(slot, periods) && Numbered(periods)
    ensures Ends(from, slot) <==> Changes(from, slot, periods)
  {
    KeyTellsPeriods(slot.entryId, from.entryId, periods);
  }

  /** The slot of the current entry on the axis of today and tomorrow, and the end of its price
      range. */
  method CurrentRange(today: Option<Day>, tomorrow: Option<Day>, entries: seq<DayEntry>, periods: seq<Period>,
                      entryId: Option<int>, startEpoch: int) returns (position: int, end: Option<int>)
    requires Numbered(periods)
    ensures var timeline := Timeline([today, tomorrow], entries, periods, 0);
      && -1 <= position < |timeline|
      && (position == -1 <==> entryId.None? || forall slot | slot in timeline :: slot.entryId != entryId.value)
      && (position == -1 ==> end.None?)
      && (position >= 0 ==> timeline[position].entryId == entryId.value)
      && (position >= 0 && OnAxis(entries) ==>
            EarliestChange(timeline, timeline[position], periods, startEpoch, end))
  {
    var timeline := BuildTimeline([today, tomorrow], entries, periods);
    position := -1;
    if entryId.Some? {
      position := FindSlot(timeline, entryId.value, -1);
    }
    end := RangeEnd(startEpoch, timeline, position);
    if position >= 0 && OnAxis(entries) {
      RangeIsEarliest(timeline, position, [today, tomorrow], entries, periods, startEpoch, end);
    }
  }

  lemma {:induction false} RangeIsEarliest(timeline: seq<Slot>, position: nat, days: seq<Option<Day>>,
                                           entries: seq<DayEntry>, periods: seq<Period>, startEpoch: int,
                                           end: Option<int>)
    requires Numbered(periods) && timeline == Timeline(days, entries, periods, 0) && InOrder(timeline)
    requires position < |timeline|
    requires end.None? <==> forall j | position < j < |timeline| :: !Ends(timeline[position], timeline[j])
    requires end.Some? ==>
      exists j | position < j < |timeline| ::
        EndsFirst(timeline, position, j) && end.value == EndAt(startEpoch, timeline[position], timeline[j])
    requires forall j | 0 <= j < |timeline| && Ends(timeline[position], timeline[j]) ::
      end.Some? && end.value <= EndAt(startEpoch, timeline[position], timeline[j])
    ensures EarliestChange(timeline, timeline[position], periods, startEpoch, end)
  {
    var from := timeline[position];
    TimelineKeyed(days, entries, periods, 0);
    assert from in timeline;
    forall j | 0 <= j < |timeline| ensures Ends(from, timeline[j]) <==> Changes(from, timeline[j], periods) {
      assert timeline[j] in timeline;
      EndsIsChange(from, timeline[j], periods);
    }
    if end.Some? {
      var j :| position < j < |timeline| && EndsFirst(timeline, position, j)
        && end.value == EndAt(startEpoch, from, timeline[j]);
      assert timeline[j] in timeline && Changes(from, timeline[j], periods);
    }
  }

  // ---- the schedule ---------------------------------------------------------------------------

  datatype Row = Row(entryId: int, startMinutes: int, endMinutes: int)

  function Max(a: int, b: int): int {
    if a < b then b else a
  }

  function RowAt(es: seq<DayEntry>, i: nat): Row
    requires i < |es|
  {
    var e := es[i];
    var nextStart := if i + 1 < |es| then es[i + 1].startMinutes else DaySpanMinutes(es);
    var limit := Max(nextStart, e.startMinutes);
    var own := if e.durationMinutes.None? then limit else e.startMinutes + e.durationMinutes.value;
    Row(e.id, e.startMinutes, if own < limit then own else limit)
  }

  function BuildDailySchedule(day: Option<Day>, entries: seq<DayEntry>): seq<Row> {
    var es := OrderedDayEntries(day, entries);
    seq(|es|, i requires 0 <= i < |es| => RowAt(es, i))
  }

  /** No entry lasts less than nothing. */
  predicate Lasting(e: DayEntry) {
    e.durationMinutes.Some? ==> e.durationMinutes.value >= 0
  }

  /** Rows come in order and do not overlap; a row never ends before it starts exactly if its
      duration is not negative; and rows without durations leave no gap. */
  lemma {:induction false} ScheduleInOrder(day: Option<Day>, entries: seq<DayEntry>, i: nat, j: nat)
    requires i < j < |BuildDailySchedule(day, entries)|
    ensures var rows := BuildDailySchedule(day, entries); var es := OrderedDayEntries(day, entries);
      && rows[i].startMinutes <= rows[j].startMinutes && rows[i].endMinutes <= rows[j].startMinutes
      && (rows[i].startMinutes <= rows[i].endMinutes <==> Lasting(es[i]))
      && (es[i].durationMinutes.None? && j == i + 1 ==> rows[i].endMinutes == rows[j].startMinutes)
  {
    var es := OrderedDayEntries(day, entries);
    DayEntriesInOrder(day, entries);
    assert es[i].startMinutes <= es[i + 1].startMinutes <= es[j].startMinutes;
  }

  /** The last row ends within the day, for entries on the axis. */
  lemma {:induction false} ScheduleEnds(day: Option<Day>, entries: seq<DayEntry>)
    requires OnAxis(entries) && BuildDailySchedule(day, entries) != []
    ensures var rows := BuildDailySchedule(day, entries); var es := OrderedDayEntries(day, entries);
      var last := rows[|rows| - 1];
      && last.endMinutes <= DaySpanMinutes(es)
      && (last.startMinutes <= last.endMinutes <==> Lasting(es[|es| - 1]))
      && (es[|es| - 1].durationMinutes.None? ==> last.endMinutes == DaySpanMinutes(es))
  {
    var es := OrderedDayEntries(day, entries);
    DayEntriesInOrder(day, entries);
    assert es[|es| - 1] in es;
    SpanCovers(es, es[|es| - 1]);
  }
}
