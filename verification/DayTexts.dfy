/** The text of a timestamp, character by character. */
module DayTexts {
  import opened Wrappers
  import opened Calendar
  import opened DayWindow

  function Two(n: int): (s: string)
    requires 0 <= n < 100
  {
    ['0' + (n / 10) as char, '0' + (n % 10) as char]
  }

  lemma {:induction false} PaddedTwo(n: int)
    requires 0 <= n < 100
    ensures n < Pow10(2) && Padded(n, 2) == Two(n)
  {
    SixDigits();
    assert Padded(n / 10 / 10, 0) == [];
    assert Padded(n / 10, 1) == [Digit(n / 10 % 10)];
    assert Padded(n, 2) == Padded(n / 10, 1) + [Digit(n % 10)];
  }

  lemma {:induction false} PaddedSplit(n: int, k: nat)
    requires 0 <= n < Pow10(k) && k >= 2
    ensures 0 <= n / 100 < Pow10(k - 2) && Padded(n, k) == Padded(n / 100, k - 2) + Two(n % 100)
  {
    assert Pow10(k) == 10 * Pow10(k - 1) && Pow10(k - 1) == 10 * Pow10(k - 2);
    assert n / 10 / 10 == n / 100 && n / 10 % 10 == n % 100 / 10 && n % 10 == n % 100 % 10;
    assert Padded(n, k) == Padded(n / 10, k - 1) + [Digit(n % 10)];
    assert Padded(n / 10, k - 1) == Padded(n / 100, k - 2) + [Digit(n / 10 % 10)];
  }

  lemma {:induction false} PaddedFour(n: int)
    requires 0 <= n < 10_000
    ensures n < Pow10(4) && Padded(n, 4) == Two(n / 100) + Two(n % 100)
  {
    SixDigits();
    PaddedSplit(n, 4);
    PaddedTwo(n / 100);
  }

  lemma {:induction false} PaddedSix(n: int)
    requires 0 <= n < 1_000_000
    ensures n < Pow10(6) && Padded(n, 6) == Two(n / 10_000) + (Two(n / 100 % 100) + Two(n % 100))
  {
    SixDigits();
    PaddedSplit(n, 6);
    var m := n / 100;
    PaddedFour(m);
    assert m / 100 == n / 10_000 && m < 10_000;
    assert Padded(n, 6) == Padded(m, 4) + Two(n % 100);
  }

  /** Six digits of microseconds if there are any, and the UTC offset. */
  function MicroText(micro: int): string
    requires 0 <= micro < 1_000_000
  {
    (if micro == 0 then "" else "." + (Two(micro / 10_000) + (Two(micro / 100 % 100) + Two(micro % 100)))) + "+00:00"
  }

  /** HH:MM:SS and what follows. */
  function TimeText(h: int, m: int, s: int, micro: int): string
    requires 0 <= h < 24 && 0 <= m < 60 && 0 <= s < 60 && 0 <= micro < 1_000_000
  {
    Two(h) + (":" + (Two(m) + (":" + (Two(s) + MicroText(micro)))))
  }

  lemma {:induction false} TimeIs(h: int, m: int, s: int, micro: int)
    requires 0 <= h < 24 && 0 <= m < 60 && 0 <= s < 60 && 0 <= micro < 1_000_000
    ensures HoursText(h, m, s, micro) == TimeText(h, m, s, micro)
  {
    PaddedTwo(h);
    PaddedTwo(m);
    PaddedTwo(s);
    PaddedSix(micro);
  }

  /** YYYY-MM-DDT and the time of the day. */
  lemma {:induction false} StampText(t: Instant, d: Date)
    requires InRange(t) && ValidDate(d) && Ordinal(d) == t / 86_400_000_000 + 1
    ensures var clock := t % 86_400_000_000;
      var time := TimeText(clock / 3_600_000_000, clock / 60_000_000 % 60, clock / 1_000_000 % 60, clock % 1_000_000);
      IsoInstant(t)
      == Two(d.year / 100) + Two(d.year % 100) + ("-" + (Two(d.month) + ("-" + (Two(d.day) + ("T" + time)))))
  {
    SameOrdinal(d, FromOrdinal(DayOf(t)));
    var clock := t % DAY;
    TimeIs(clock / HOUR, clock / MINUTE % 60, clock / SECOND % 60, clock % SECOND);
    PaddedFour(d.year);
    PaddedTwo(d.month);
    PaddedTwo(d.day);
  }

  lemma {:induction false} LeapDay()
    ensures Ordinal(Date(2024, 2, 29)) == 738_945 && Ordinal(Date(2024, 3, 1)) == 738_946
  {
    assert DaysBeforeYear(2024) == 738_885;
    assert DaysBeforeMonth(2024, 2) == 31;
    assert DaysBeforeMonth(2024, 3) == 31 + DaysInMonth(2024, 2);
  }

  lemma {:induction false} ThreeInTheAfternoon()
    ensures "T" + TimeText(15, 0, 0, 0) == "T15:00:00+00:00"
  {
    assert Two(15) == "15" && Two(0) == "00";
  }

  lemma {:induction false} ClockAtThree(n: int, t: int)
    requires t == n * 86_400_000_000 + 54_000_000_000
    ensures t / 86_400_000_000 == n
    ensures var clock := t % 86_400_000_000;
      clock / 3_600_000_000 == 15 && clock / 60_000_000 % 60 == clock / 1_000_000 % 60 == clock % 1_000_000 == 0
  {
    assert t % 86_400_000_000 == 54_000_000_000;
  }

  /** 15:00 UTC of the day, when the next day starts in Korea. */
  function AfternoonText(d: Date): string
    requires ValidDate(d)
  {
    Two(d.year / 100) + Two(d.year % 100) + ("-" + (Two(d.month) + ("-" + (Two(d.day) + "T15:00:00+00:00"))))
  }

  lemma {:induction false} KoreanMidnight(d: Date, t: Instant)
    requires ValidDate(d) && InRange(t) && t == (Ordinal(d) - 1) * 86_400_000_000 + 54_000_000_000
    ensures IsoInstant(t) == AfternoonText(d)
  {
    ClockAtThree(Ordinal(d) - 1, t);
    StampText(t, d);
    ThreeInTheAfternoon();
  }

  lemma {:induction false} StartAtThree(n: int)
    ensures StartOf(n + 1) == (n - 1) * 86_400_000_000 + 54_000_000_000
  {
  }

  /** A day's window goes from the afternoon of the day before, in UTC, to its own. */
  lemma {:induction false} BoundsText(day: Date, before: Date)
    requires ValidDate(day) && ValidDate(before) && Ordinal(before) + 1 == Ordinal(day) < DAYS
    ensures DayBounds(day) == Some(Window(AfternoonText(before), AfternoonText(day)))
  {
    OrdinalInRange(before);
    BoundsAre(day);
    StartAtThree(Ordinal(before));
    StartAtThree(Ordinal(day));
    KoreanMidnight(before, StartOf(Ordinal(day)));
    KoreanMidnight(day, StartOf(Ordinal(day) + 1));
  }

  /** The first of March 2024 starts on the leap day. */
  lemma {:induction false} BoundsOfOneDay()
    ensures DayBounds(Date(2024, 3, 1))
         == Some(Window(AfternoonText(Date(2024, 2, 29)), AfternoonText(Date(2024, 3, 1))))
  {
    LeapDay();
    BoundsText(Date(2024, 3, 1), Date(2024, 2, 29));
  }
}
