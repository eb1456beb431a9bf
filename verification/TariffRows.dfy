/** Which entries, periods and rows the tariff shows, place by place. */
module TariffRows {
  import opened Wrappers
  import opened Tariff

  // ---- a day's entries ----------------------------------------------------------------------------

  /** The first entry with the id is found, or none has it. */
  lemma {:induction false} FindIsFirst(entries: seq<DayEntry>, id: int)
    ensures match Find(entries, id)
      case Some(e) => exists i | 0 <= i < |entries| ::
        entries[i] == e && e.id == id && forall j | 0 <= j < i :: entries[j].id != id
      case None => forall e | e in entries :: e.id != id
  {
    if entries != [] && entries[0].id != id {
      FindIsFirst(entries[1..], id);
      var found := Find(entries[1..], id);
      if found.Some? {
        var i :| 0 <= i < |entries[1..]| && entries[1..][i] == found.value && found.value.id == id
                 && forall j | 0 <= j < i :: entries[1..][j].id != id;
        assert entries[i + 1] == found.value;
        forall j | 0 <= j < i + 1 ensures entries[j].id != id {
          if j > 0 {
            assert entries[j] == entries[1..][j - 1];
          }
        }
      }
    }
  }

  function WithStart(es: seq<DayEntry>, minutes: int): seq<DayEntry> {
    if es == [] then [] else (if es[0].startMinutes == minutes then [es[0]] else []) + WithStart(es[1..], minutes)
  }

  lemma {:induction false} InsertStable(e: DayEntry, es: seq<DayEntry>, minutes: int)
    ensures WithStart(Insert(e, es), minutes) == WithStart([e] + es, minutes)
  {
    assert ([e] + es)[1..] == es;
    if es != [] && e.startMinutes > es[0].startMinutes {
      InsertStable(e, es[1..], minutes);
      assert ([e] + es[1..])[1..] == es[1..];
      assert Insert(e, es)[1..] == Insert(e, es[1..]);
    }
  }

  lemma {:induction false} SortStable(es: seq<DayEntry>, minutes: int)
    ensures WithStart(SortByStart(es), minutes) == WithStart(es, minutes)
  {
    if es != [] {
      SortStable(es[1..], minutes);
      InsertStable(es[0], SortByStart(es[1..]), minutes);
      var sorted := SortByStart(es[1..]);
      assert ([es[0]] + sorted)[1..] == sorted;
    }
  }

  /** The day's described entries are all there, once for each id, and entries of one start keep
      the order of the ids. */
  lemma {:induction false} DayEntriesStable(day: Day, entries: seq<DayEntry>, minutes: int)
    ensures var es := OrderedDayEntries(Some(day), entries);
      Ascending(es) && WithStart(es, minutes) == WithStart(Described(day.dayEntryIds, entries), minutes)
    ensures OrderedDayEntries(None, entries) == []
  {
    DayEntriesInOrder(Some(day), entries);
    SortStable(Described(day.dayEntryIds, entries), minutes);
  }

  /** Each id that is described gives its entry, right behind those of the ids before it. */
  lemma {:induction false} DescribedAt(ids: seq<int>, entries: seq<DayEntry>, i: nat)
    requires i < |ids| && Find(entries, ids[i]).Some?
    ensures var k := |Described(ids[..i], entries)|;
      k < |Described(ids, entries)| && Described(ids, entries)[k] == Find(entries, ids[i]).value
    decreases ids
  {
    if i > 0 {
      DescribedAt(ids[1..], entries, i - 1);
      assert ids[..i][0] == ids[0] && ids[..i][1..] == ids[1..][..i - 1];
    } else {
      assert ids[..i] == [];
    }
  }

  /** And no other entry is given. */
  lemma {:induction false} OnlyDescribed(ids: seq<int>, entries: seq<DayEntry>)
    ensures |Described(ids, entries)| <= |ids|
    ensures forall e | e in Described(ids, entries) :: exists id | id in ids :: Find(entries, id) == Some(e)
    decreases ids
  {
    if ids != [] {
      OnlyDescribed(ids[1..], entries);
      assert ids[0] in ids;
      forall e | e in Described(ids, entries) ensures exists id | id in ids :: Find(entries, id) == Some(e) {
        if e in Described(ids[1..], entries) {
          var id :| id in ids[1..] && Find(entries, id) == Some(e);
          assert id in ids;
        } else {
          assert Find(entries, ids[0]) == Some(e);
        }
      }
    }
  }

  // ---- periods ------------------------------------------------------------------------------------

  /** An entry's periods are those that list it, in their order. */
  lemma {:induction false} PeriodsOfAre(id: int, periods: seq<Period>)
    ensures forall p :: p in PeriodsOf(id, periods) <==> p in periods && id in p.dayEntryIds
    ensures Numbered(periods) ==>
      forall i, j | 0 <= i < j < |PeriodsOf(id, periods)| ::
        PeriodsOf(id, periods)[i].index < PeriodsOf(id, periods)[j].index
  {
    PeriodsHave(id, periods);
    if Numbered(periods) {
      PeriodsAscend(id, periods);
    }
  }

  lemma {:induction false} PeriodsHave(id: int, periods: seq<Period>)
    ensures forall p :: p in PeriodsOf(id, periods) <==> p in periods && id in p.dayEntryIds
  {
    if periods != [] {
      PeriodsHave(id, periods[1..]);
      assert forall p :: p in periods <==> p == periods[0] || p in periods[1..];
    }
  }

  lemma {:induction false} PeriodsAscend(id: int, periods: seq<Period>)
    requires forall i, j | 0 <= i < j < |periods| :: periods[i].index < periods[j].index
    ensures forall i, j | 0 <= i < j < |PeriodsOf(id, periods)| ::
      PeriodsOf(id, periods)[i].index < PeriodsOf(id, periods)[j].index
  {
    if periods != [] {
      PeriodsAscend(id, periods[1..]);
      PeriodsHave(id, periods[1..]);
      forall p | p in PeriodsOf(id, periods[1..]) ensures periods[0].index < p.index {
        var k :| 0 <= k < |periods[1..]| && periods[1..][k] == p;
        assert periods[k + 1] == p;
      }
    }
  }

  // ---- the axis -----------------------------------------------------------------------------------

  /** A day spans 24 hours, or 25 if its last entry starts in the 25th. */
  lemma {:induction false} DaySpan(es: seq<DayEntry>)
    ensures DaySpanMinutes(es) == if es != [] && es[|es| - 1].startMinutes >= 1440 then 1500 else 1440
  {
  }

  /** Today's entries stand at their own starts, tomorrow's behind all of today. */
  lemma {:induction false} TwoDays(today: Option<Day>, tomorrow: Option<Day>, entries: seq<DayEntry>,
                                   periods: seq<Period>, i: nat, j: nat)
    ensures var timeline := Timeline([today, tomorrow], entries, periods, 0);
      var es, fs := OrderedDayEntries(today, entries), OrderedDayEntries(tomorrow, entries);
      && |timeline| == |es| + |fs|
      && (i < |es| ==>
            timeline[i] == Slot(es[i].id, es[i].startMinutes, PeriodKey(PeriodsOf(es[i].id, periods))))
      && (j < |fs| ==>
            timeline[|es| + j]
            == Slot(fs[j].id, DaySpanMinutes(es) + fs[j].startMinutes, PeriodKey(PeriodsOf(fs[j].id, periods))))
  {
    var es, fs := OrderedDayEntries(today, entries), OrderedDayEntries(tomorrow, entries);
    assert [today, tomorrow][1..] == [tomorrow] && [tomorrow][1..] == [];
    var span := DaySpanMinutes(es);
    assert Timeline([tomorrow], entries, periods, span) == SlotsOf(fs, span, periods) + [];
    if i < |es| {
      SlotsAt(es, 0, periods, i);
    }
    if j < |fs| {
      SlotsAt(fs, span, periods, j);
    }
  }

  // ---- the schedule -------------------------------------------------------------------------------

  /** A row for each entry of the day, in order: it has the entry's id and start, and ends with its
      duration, but no later than the next entry starts, or the day ends. */
  lemma {:induction false} ScheduleRows(day: Option<Day>, entries: seq<DayEntry>, i: nat)
    requires i < |OrderedDayEntries(day, entries)|
    ensures var es, rows := OrderedDayEntries(day, entries), BuildDailySchedule(day, entries);
      var next := if i + 1 < |es| then es[i + 1].startMinutes else DaySpanMinutes(es);
      var limit := if next < es[i].startMinutes then es[i].startMinutes else next;
      && |rows| == |es| && rows[i].entryId == es[i].id && rows[i].startMinutes == es[i].startMinutes
      && (i + 1 < |es| ==> limit == next)
      && (es[i].durationMinutes.None? ==> rows[i].endMinutes == limit)
      && (es[i].durationMinutes.Some? ==>
            var end := es[i].startMinutes + es[i].durationMinutes.value;
            rows[i].endMinutes == if end <= limit then end else limit)
  {
    DayEntriesInOrder(day, entries);
  }
}
