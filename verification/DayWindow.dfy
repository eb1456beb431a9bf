/** Records grouped by Korean calendar day, by comparing UTC timestamps as text. */
module DayWindow {
  import opened Wrappers
  import opened Calendar

  // ---- instants -----------------------------------------------------------------------------------

  /** Microseconds since the start of year 1 in UTC. */
  type Instant = int

  const SECOND: int := 1_000_000
  const MINUTE: int := 60 * SECOND
  const HOUR: int := 60 * MINUTE
  const DAY: int := 24 * HOUR

  /** KST, all year round. */
  const APP_OFFSET: int := 9 * HOUR

  predicate InRange(t: Instant) {
    0 <= t < DAYS * DAY
  }

  /** A timestamp with its offset from UTC. */
  datatype Aware = Aware(date: Date, clock: int, offset: int)

  predicate ValidAware(v: Aware) {
    ValidDate(v.date) && 0 <= v.clock < DAY && -DAY < v.offset < DAY
  }

  function UtcOf(v: Aware): int
    requires ValidAware(v)
  {
    (Ordinal(v.date) - 1) * DAY + v.clock - v.offset
  }

  // ---- timestamps as text -------------------------------------------------------------------------

  /** Microseconds are printed only where there are any. */
  function FractionText(micro: int): string
    requires 0 <= micro < SECOND
  {
    SixDigits();
    (if micro == 0 then [] else "." + Padded(micro, 6)) + "+00:00"
  }

  lemma {:induction false} SixDigits()
    ensures Pow10(6) == SECOND && Pow10(2) == 100 && Pow10(4) == 10_000
  {
    assert Pow10(3) == 1000;
    assert Pow10(6) == 1000 * Pow10(3);
  }

  function SecondsText(second: int, micro: int): string
    requires 0 <= second < 60 && 0 <= micro < SECOND
  {
    SixDigits();
    Padded(second, 2) + FractionText(micro)
  }

  function MinutesText(minute: int, second: int, micro: int): string
    requires 0 <= minute < 60 && 0 <= second < 60 && 0 <= micro < SECOND
  {
    SixDigits();
    Padded(minute, 2) + (":" + SecondsText(second, micro))
  }

  function HoursText(hour: int, minute: int, second: int, micro: int): string
    requires 0 <= hour < 24 && 0 <= minute < 60 && 0 <= second < 60 && 0 <= micro < SECOND
  {
    SixDigits();
    Padded(hour, 2) + (":" + MinutesText(minute, second, micro))
  }

  function ClockText(clock: int): string
    requires 0 <= clock < DAY
  {
    HoursText(clock / HOUR, clock / MINUTE % 60, clock / SECOND % 60, clock % SECOND)
  }

  function DateText(d: Date, rest: string): string
    requires ValidDate(d)
  {
    SixDigits();
    Padded(d.year, 4) + ("-" + (Padded(d.month, 2) + ("-" + (Padded(d.day, 2) + rest))))
  }

  function DayOf(t: Instant): (n: int)
    requires InRange(t)
    ensures 1 <= n <= DAYS
  {
    t / DAY + 1
  }

  function IsoInstant(t: Instant): string
    requires InRange(t)
  {
    DateText(FromOrdinal(DayOf(t)), "T" + ClockText(t % DAY))
  }

  /** The UTC text of a timestamp; None where UTC leaves the supported years. */
  function Iso(v: Aware): Option<string>
    requires ValidAware(v)
  {
    if InRange(UtcOf(v)) then Some(IsoInstant(UtcOf(v))) else None
  }

  // ---- text order is time order -------------------------------------------------------------------

  lemma {:induction false} FractionInOrder(a: int, b: int)
    requires 0 <= a < b < SECOND
    ensures Less(FractionText(a), FractionText(b))
  {
    SixDigits();
    if a == 0 {
      assert FractionText(b) == "." + (Padded(b, 6) + "+00:00");
      assert FractionText(a)[0] == '+' && FractionText(b)[0] == '.';
    } else {
      PaddedLess(a, b, 6, "+00:00", "+00:00");
      assert FractionText(a) == "." + (Padded(a, 6) + "+00:00");
      assert FractionText(b) == "." + (Padded(b, 6) + "+00:00");
      SamePrefix(".", Padded(a, 6) + "+00:00", Padded(b, 6) + "+00:00");
    }
  }

  /** The first larger part of the clock decides. */
  lemma {:induction false} ClockParts(a: int, b: int)
    requires 0 <= a < b < DAY
    ensures a / HOUR <= b / HOUR
    ensures a / HOUR == b / HOUR ==> a / MINUTE % 60 <= b / MINUTE % 60
    ensures a / HOUR == b / HOUR && a / MINUTE % 60 == b / MINUTE % 60 ==> a / SECOND % 60 <= b / SECOND % 60
    ensures a / HOUR == b / HOUR && a / MINUTE % 60 == b / MINUTE % 60 && a / SECOND % 60 == b / SECOND % 60 ==>
      a % SECOND < b % SECOND
  {
    ClockSplit(a);
    ClockSplit(b);
  }

  lemma {:induction false} ClockSplit(a: int)
    requires 0 <= a < DAY
    ensures a == a / HOUR * HOUR + a / MINUTE % 60 * MINUTE + a / SECOND % 60 * SECOND + a % SECOND
    ensures 0 <= a / MINUTE % 60 < 60 && 0 <= a / SECOND % 60 < 60 && 0 <= a % SECOND < SECOND
  {
    var seconds := a / SECOND;
    var minutes := seconds / 60;
    assert a / MINUTE == minutes;
    assert a / HOUR == minutes / 60;
  }

  lemma {:induction false} SecondsInOrder(s: int, f: int, t: int, g: int)
    requires 0 <= s < 60 && 0 <= t < 60 && 0 <= f < SECOND && 0 <= g < SECOND
    requires s < t || (s == t && f < g)
    ensures Less(SecondsText(s, f), SecondsText(t, g))
  {
    SixDigits();
    if s == t {
      FractionInOrder(f, g);
    }
    FieldLess(s, t, 2, FractionText(f), FractionText(g));
  }

  lemma {:induction false} MinutesInOrder(m: int, s: int, f: int, n: int, t: int, g: int)
    requires 0 <= m < 60 && 0 <= n < 60 && 0 <= s < 60 && 0 <= t < 60 && 0 <= f < SECOND && 0 <= g < SECOND
    requires m < n || (m == n && (s < t || (s == t && f < g)))
    ensures Less(MinutesText(m, s, f), MinutesText(n, t, g))
  {
    SixDigits();
    if m == n {
      SecondsInOrder(s, f, t, g);
      SamePrefix(":", SecondsText(s, f), SecondsText(t, g));
    }
    FieldLess(m, n, 2, ":" + SecondsText(s, f), ":" + SecondsText(t, g));
  }

  lemma {:induction false} HoursInOrder(h: int, m: int, s: int, f: int, k: int, n: int, t: int, g: int)
    requires 0 <= h < 24 && 0 <= m < 60 && 0 <= s < 60 && 0 <= f < SECOND
    requires 0 <= k < 24 && 0 <= n < 60 && 0 <= t < 60 && 0 <= g < SECOND
    requires h < k || (h == k && (m < n || (m == n && (s < t || (s == t && f < g)))))
    ensures Less(HoursText(h, m, s, f), HoursText(k, n, t, g))
  {
    SixDigits();
    if h == k {
      MinutesInOrder(m, s, f, n, t, g);
      SamePrefix(":", MinutesText(m, s, f), MinutesText(n, t, g));
    }
    FieldLess(h, k, 2, ":" + MinutesText(m, s, f), ":" + MinutesText(n, t, g));
  }

  lemma {:induction false} ClockInOrder(a: int, b: int)
    requires 0 <= a < b < DAY
    ensures Less(ClockText(a), ClockText(b))
  {
    ClockParts(a, b);
    HoursInOrder(a / HOUR, a / MINUTE % 60, a / SECOND % 60, a % SECOND,
                 b / HOUR, b / MINUTE % 60, b / SECOND % 60, b % SECOND);
  }

  lemma {:induction false} DateInOrder(d: Date, e: Date, a: string, b: string)
    requires ValidDate(d) && ValidDate(e) && (Before(d, e) || (d == e && Less(a, b)))
    ensures Less(DateText(d, a), DateText(e, b))
  {
    SixDigits();
    var x, y := Padded(d.day, 2) + a, Padded(e.day, 2) + b;
    var m, n := Padded(d.month, 2) + ("-" + x), Padded(e.month, 2) + ("-" + y);
    if d.year == e.year {
      if d.month == e.month {
        FieldLess(d.day, e.day, 2, a, b);
        SamePrefix("-", x, y);
      }
      FieldLess(d.month, e.month, 2, "-" + x, "-" + y);
      SamePrefix("-", m, n);
    }
    FieldLess(d.year, e.year, 4, "-" + m, "-" + n);
  }

  lemma {:induction false} DayThenClock(s: Instant, t: Instant)
    requires InRange(s) && InRange(t) && s < t
    ensures DayOf(s) < DayOf(t) || (DayOf(s) == DayOf(t) && s % DAY < t % DAY)
  {
  }

  lemma {:induction false} InstantsInOrder(s: Instant, t: Instant)
    requires InRange(s) && InRange(t) && s < t
    ensures Less(IsoInstant(s), IsoInstant(t))
  {
    DayThenClock(s, t);
    if DayOf(s) < DayOf(t) {
      DatesInOrder(DayOf(s), DayOf(t));
    } else {
      ClockInOrder(s % DAY, t % DAY);
      SamePrefix("T", ClockText(s % DAY), ClockText(t % DAY));
    }
    DateInOrder(FromOrdinal(DayOf(s)), FromOrdinal(DayOf(t)), "T" + ClockText(s % DAY), "T" + ClockText(t % DAY));
  }

  /** Although microseconds are printed only sometimes, text order is time order. */
  lemma {:induction false} TextOrderIsTimeOrder(s: Instant, t: Instant)
    requires InRange(s) && InRange(t)
    ensures Less(IsoInstant(s), IsoInstant(t)) <==> s < t
    ensures IsoInstant(s) == IsoInstant(t) <==> s == t
  {
    if s < t {
      InstantsInOrder(s, t);
      NotLessSelf(IsoInstant(s));
    } else if t < s {
      InstantsInOrder(t, s);
      LessAsymmetric(IsoInstant(t), IsoInstant(s));
      NotLessSelf(IsoInstant(s));
    } else {
      NotLessSelf(IsoInstant(s));
    }
  }

  // ---- the window of a day ------------------------------------------------------------------------

  datatype Window = Window(start: string, end: string)

  /** None: an error, on the first and on the last day of the calendar. */
  function DayBounds(day: Date): Option<Window>
    requires ValidDate(day)
  {
    var start := Aware(day, 0, APP_OFFSET);
    if Ordinal(day) + 1 > DAYS then None
    else
      OrdinalInRange(day);
      var end := Aware(FromOrdinal(Ordinal(day) + 1), 0, APP_OFFSET);
      var first :- Iso(start);
      var last :- Iso(end);
      Some(Window(first, last))
  }

  predicate Within(stamp: string, w: Window) {
    !Less(stamp, w.start) && Less(stamp, w.end)
  }

  /** The Korean day of an instant, as an ordinal. */
  function KoreanDay(t: Instant): int {
    (t + APP_OFFSET) / DAY + 1
  }

  /** The start of a Korean day. */
  function StartOf(n: int): Instant {
    (n - 1) * DAY - APP_OFFSET
  }

  lemma {:induction false} StartInRange(n: int)
    requires 1 <= n <= DAYS
    ensures InRange(StartOf(n)) <==> 1 < n
  {
  }

  lemma {:induction false} IsoOfStart(day: Date)
    requires ValidDate(day) && 1 <= Ordinal(day) <= DAYS
    ensures Iso(Aware(day, 0, APP_OFFSET)) == if 1 < Ordinal(day) then Some(IsoInstant(StartOf(Ordinal(day)))) else None
  {
    StartInRange(Ordinal(day));
    UtcOfStart(day);
  }

  lemma {:induction false} UtcOfStart(day: Date)
    requires ValidDate(day)
    ensures ValidAware(Aware(day, 0, APP_OFFSET)) && UtcOf(Aware(day, 0, APP_OFFSET)) == StartOf(Ordinal(day))
  {
  }

  lemma {:induction false} OrdinalInRange(day: Date)
    requires ValidDate(day)
    ensures 1 <= Ordinal(day) <= DAYS
  {
    OrdinalInYear(day);
    YearsMonotone(1, day.year);
    YearsMonotone(day.year + 1, MAX_YEAR + 1);
  }

  /** The bounds are the day's start and the next day's ... */
  lemma {:induction false} BoundsInside(day: Date)
    requires ValidDate(day) && 1 < Ordinal(day) < DAYS
    ensures InRange(StartOf(Ordinal(day))) && InRange(StartOf(Ordinal(day) + 1))
    ensures DayBounds(day) == Some(Window(IsoInstant(StartOf(Ordinal(day))), IsoInstant(StartOf(Ordinal(day) + 1))))
  {
    StartInRange(Ordinal(day));
    StartInRange(Ordinal(day) + 1);
    IsoOfStart(day);
    IsoOfStart(FromOrdinal(Ordinal(day) + 1));
  }

  lemma {:induction false} BoundsOutside(day: Date)
    requires ValidDate(day) && (Ordinal(day) == 1 || Ordinal(day) == DAYS)
    ensures DayBounds(day).None?
  {
    if Ordinal(day) == 1 {
      IsoOfStart(day);
    }
  }

  /** ... where UTC has both. */
  lemma {:induction false} BoundsAre(day: Date)
    requires ValidDate(day)
    ensures 1 <= Ordinal(day) <= DAYS
    ensures DayBounds(day).Some? <==> 1 < Ordinal(day) < DAYS
    ensures DayBounds(day).Some? ==> InRange(StartOf(Ordinal(day))) && InRange(StartOf(Ordinal(day) + 1))
    ensures DayBounds(day).Some? ==>
      DayBounds(day).value == Window(IsoInstant(StartOf(Ordinal(day))), IsoInstant(StartOf(Ordinal(day) + 1)))
  {
    OrdinalInRange(day);
    if 1 < Ordinal(day) < DAYS {
      BoundsInside(day);
    } else {
      BoundsOutside(day);
    }
  }

  /** A day's window holds exactly the instants of that Korean day. */
  lemma {:induction false} WindowIsDay(day: Date, t: Instant)
    requires ValidDate(day) && DayBounds(day).Some? && InRange(t)
    ensures Within(IsoInstant(t), DayBounds(day).value) <==> KoreanDay(t) == Ordinal(day)
  {
    BoundsAre(day);
    TextOrderIsTimeOrder(t, StartOf(Ordinal(day)));
    TextOrderIsTimeOrder(t, StartOf(Ordinal(day) + 1));
    DayOfInstant(t, Ordinal(day));
  }

  lemma {:induction false} DayOfInstant(t: Instant, n: int)
    ensures StartOf(n) <= t < StartOf(n + 1) <==> KoreanDay(t) == n
  {
    var u := t + APP_OFFSET;
    assert u == u / DAY * DAY + u % DAY;
  }

  /** Every instant is in exactly one window, its own day's; only the days without bounds
      have none. */
  lemma {:induction false} WindowsPartition(t: Instant, day: Date)
    requires InRange(t) && ValidDate(day) && DayBounds(day).Some? && 1 < KoreanDay(t) < DAYS
    ensures DayBounds(FromOrdinal(KoreanDay(t))).Some?
    ensures Within(IsoInstant(t), DayBounds(day).value) <==> day == FromOrdinal(KoreanDay(t))
  {
    var own := FromOrdinal(KoreanDay(t));
    BoundsAre(own);
    WindowIsDay(day, t);
    if Ordinal(day) == Ordinal(own) && day != own {
      SameOrdinal(day, own);
    }
  }

  lemma {:induction false} SameOrdinal(a: Date, b: Date)
    requires ValidDate(a) && ValidDate(b) && Ordinal(a) == Ordinal(b)
    ensures a == b
  {
    if Before(a, b) {
      OrdinalMonotone(a, b);
    } else if Before(b, a) {
      OrdinalMonotone(b, a);
    }
  }

  /** Consecutive windows meet. */
  lemma {:induction false} WindowsMeet(n: int)
    requires 1 < n && n + 1 < DAYS
    ensures DayBounds(FromOrdinal(n)).Some? && DayBounds(FromOrdinal(n + 1)).Some?
    ensures DayBounds(FromOrdinal(n)).value.end == DayBounds(FromOrdinal(n + 1)).value.start
  {
    BoundsAre(FromOrdinal(n));
    BoundsAre(FromOrdinal(n + 1));
  }
}
