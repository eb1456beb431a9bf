/** The proleptic Gregorian calendar and ISO 8601 timestamps in UTC, whose order as text is
    the order of time. */
module Calendar {

  datatype Date = Date(year: int, month: int, day: int)

  const MAX_YEAR: int := 9999

  predicate IsLeap(year: int) {
    year % 4 == 0 && (year % 100 != 0 || year % 400 == 0)
  }

  function DaysInMonth(year: int, month: int): (d: int)
    ensures 28 <= d <= 31
  {
    if month == 2 then (if IsLeap(year) then 29 else 28)
    else if month == 4 || month == 6 || month == 9 || month == 11 then 30
    else 31
  }

  predicate ValidDate(d: Date) {
    1 <= d.year <= MAX_YEAR && 1 <= d.month <= 12 && 1 <= d.day <= DaysInMonth(d.year, d.month)
  }

  function DaysBeforeYear(year: int): int {
    var y := year - 1;
    y * 365 + y / 4 - y / 100 + y / 400
  }

  function DaysBeforeMonth(year: int, month: int): (d: int)
    requires 1 <= month <= 13
    ensures 28 * (month - 1) <= d
  {
    if month == 1 then 0 else DaysBeforeMonth(year, month - 1) + DaysInMonth(year, month - 1)
  }

  function DaysInYear(year: int): int {
    if IsLeap(year) then 366 else 365
  }

  /** Days since the eve of year 1. */
  function Ordinal(d: Date): int
    requires 1 <= d.month <= 12
  {
    DaysBeforeYear(d.year) + DaysBeforeMonth(d.year, d.month) + d.day
  }

  /** The number of multiples grows by one at each multiple. */
  lemma {:induction false} NextFourth(y: int)
    ensures y / 4 == (y - 1) / 4 + if y % 4 == 0 then 1 else 0
  {
  }

  lemma {:induction false} NextHundredth(y: int)
    ensures y / 100 == (y - 1) / 100 + if y % 100 == 0 then 1 else 0
  {
  }

  lemma {:induction false} NextFourHundredth(y: int)
    ensures y / 400 == (y - 1) / 400 + if y % 400 == 0 then 1 else 0
  {
  }

  lemma {:induction false} MultiplesNest(y: int)
    ensures y % 400 == 0 ==> y % 100 == 0
    ensures y % 100 == 0 ==> y % 4 == 0
  {
    if y % 400 == 0 {
      MultipleOf100(4 * (y / 400));
    }
    if y % 100 == 0 {
      MultipleOf4(25 * (y / 100));
    }
  }

  lemma {:induction false} MultipleOf100(k: int)
    ensures (100 * k) % 100 == 0
  {
  }

  lemma {:induction false} MultipleOf4(k: int)
    ensures (4 * k) % 4 == 0
  {
  }

  lemma {:induction false} NextYear(year: int)
    ensures DaysBeforeYear(year + 1) == DaysBeforeYear(year) + DaysInYear(year)
  {
    NextFourth(year);
    NextHundredth(year);
    NextFourHundredth(year);
    MultiplesNest(year);
  }

  lemma {:induction false} MonthsOfYear(year: int)
    ensures DaysBeforeMonth(year, 13) == DaysInYear(year)
  {
    assert DaysBeforeMonth(year, 2) == 31;
    assert DaysBeforeMonth(year, 3) == 31 + DaysInMonth(year, 2);
    assert DaysBeforeMonth(year, 4) == DaysBeforeMonth(year, 3) + 31;
    assert DaysBeforeMonth(year, 5) == DaysBeforeMonth(year, 4) + 30;
    assert DaysBeforeMonth(year, 6) == DaysBeforeMonth(year, 5) + 31;
    assert DaysBeforeMonth(year, 7) == DaysBeforeMonth(year, 6) + 30;
    assert DaysBeforeMonth(year, 8) == DaysBeforeMonth(year, 7) + 31;
    assert DaysBeforeMonth(year, 9) == DaysBeforeMonth(year, 8) + 31;
    assert DaysBeforeMonth(year, 10) == DaysBeforeMonth(year, 9) + 30;
    assert DaysBeforeMonth(year, 11) == DaysBeforeMonth(year, 10) + 31;
    assert DaysBeforeMonth(year, 12) == DaysBeforeMonth(year, 11) + 30;
  }

  lemma {:induction false} YearsMonotone(a: int, b: int)
    requires a <= b
    ensures DaysBeforeYear(a) <= DaysBeforeYear(b)
    decreases b - a
  {
    if a < b {
      YearsMonotone(a, b - 1);
      NextYear(b - 1);
    }
  }

  lemma {:induction false} MonthsMonotone(year: int, a: int, b: int)
    requires 1 <= a <= b <= 13
    ensures DaysBeforeMonth(year, a) <= DaysBeforeMonth(year, b)
    decreases b
  {
    if a < b {
      MonthsMonotone(year, a, b - 1);
    }
  }

  predicate Before(a: Date, b: Date) {
    a.year < b.year || (a.year == b.year && (a.month < b.month || (a.month == b.month && a.day < b.day)))
  }

  /** A date's ordinal lies within its month, and its month's within its year. */
  lemma {:induction false} OrdinalInYear(d: Date)
    requires ValidDate(d)
    ensures DaysBeforeYear(d.year) < Ordinal(d) <= DaysBeforeYear(d.year + 1)
  {
    MonthsMonotone(d.year, d.month + 1, 13);
    MonthsOfYear(d.year);
    NextYear(d.year);
  }

  lemma {:induction false} OrdinalMonotone(a: Date, b: Date)
    requires ValidDate(a) && ValidDate(b) && Before(a, b)
    ensures Ordinal(a) < Ordinal(b)
  {
    if a.year < b.year {
      OrdinalInYear(a);
      OrdinalInYear(b);
      YearsMonotone(a.year + 1, b.year);
    } else if a.month < b.month {
      MonthsMonotone(a.year, a.month + 1, b.month);
    }
  }

  // ---- dates of ordinals ------------------------------------------------------------------------

  /** The ordinal of the last day of year 9999. */
  const DAYS: int := 3652059

  function YearOf(n: int, year: int): (y: int)
    requires DaysBeforeYear(year) < n <= DAYS && 1 <= year <= MAX_YEAR
    ensures year <= y <= MAX_YEAR && DaysBeforeYear(y) < n <= DaysBeforeYear(y + 1)
    decreases MAX_YEAR - year
  {
    if n <= DaysBeforeYear(year + 1) then year else YearOf(n, year + 1)
  }

  function MonthOf(n: int, year: int, month: int): (m: int)
    requires 1 <= month <= 12 && DaysBeforeMonth(year, month) < n <= DaysBeforeMonth(year, 13)
    ensures month <= m <= 12 && DaysBeforeMonth(year, m) < n <= DaysBeforeMonth(year, m + 1)
    decreases 12 - month
  {
    if n <= DaysBeforeMonth(year, month + 1) then month else MonthOf(n, year, month + 1)
  }

  function FromOrdinal(n: int): (d: Date)
    requires 1 <= n <= DAYS
    ensures ValidDate(d) && Ordinal(d) == n
  {
    var year := YearOf(n, 1);
    var rest := n - DaysBeforeYear(year);
    NextYear(year);
    MonthsOfYear(year);
    var month := MonthOf(rest, year, 1);
    Date(year, month, rest - DaysBeforeMonth(year, month))
  }

  lemma {:induction false} DatesInOrder(a: int, b: int)
    requires 1 <= a < b <= DAYS
    ensures Before(FromOrdinal(a), FromOrdinal(b))
  {
    var d, e := FromOrdinal(a), FromOrdinal(b);
    if Before(e, d) {
      OrdinalMonotone(e, d);
    }
  }

  // ---- text order -------------------------------------------------------------------------------

  /** Text comparison, unit by unit, a proper prefix first. */
  predicate Less(a: string, b: string) {
    b != [] && (a == [] || a[0] < b[0] || (a[0] == b[0] && Less(a[1..], b[1..])))
  }

  lemma {:induction false} SamePrefix(p: string, a: string, b: string)
    ensures Less(p + a, p + b) <==> Less(a, b)
  {
    if p == [] {
      assert p + a == a && p + b == b;
    } else {
      assert (p + a)[1..] == p[1..] + a && (p + b)[1..] == p[1..] + b;
      SamePrefix(p[1..], a, b);
    }
  }

  lemma {:induction false} LessAsymmetric(a: string, b: string)
    requires Less(a, b)
    ensures !Less(b, a)
  {
    if a != [] && a[0] == b[0] {
      LessAsymmetric(a[1..], b[1..]);
    }
  }

  lemma {:induction false} NotLessSelf(a: string)
    ensures !Less(a, a)
  {
    if a != [] {
      NotLessSelf(a[1..]);
    }
  }

  function Pow10(k: nat): (p: int)
    ensures p > 0
  {
    if k == 0 then 1 else 10 * Pow10(k - 1)
  }

  function Digit(n: int): char
    requires 0 <= n < 10
  {
    '0' + n as char
  }

  /** The number in k digits. */
  function Padded(n: int, k: nat): (s: string)
    requires 0 <= n < Pow10(k)
    ensures |s| == k
  {
    if k == 0 then [] else Padded(n / 10, k - 1) + [Digit(n % 10)]
  }

  /** In fixed width, numbers are ordered as text, whatever follows. */
  lemma {:induction false} PaddedLess(m: int, n: int, k: nat, a: string, b: string)
    requires 0 <= m < n < Pow10(k)
    ensures Less(Padded(m, k) + a, Padded(n, k) + b)
  {
    var x, y := Padded(m / 10, k - 1), Padded(n / 10, k - 1);
    var u, v := [Digit(m % 10)], [Digit(n % 10)];
    assert Padded(m, k) + a == x + (u + a) && Padded(n, k) + b == y + (v + b);
    if m / 10 < n / 10 {
      PaddedLess(m / 10, n / 10, k - 1, u + a, v + b);
    } else {
      SamePrefix(x, u + a, v + b);
      assert (u + a)[0] == Digit(m % 10) && (v + b)[0] == Digit(n % 10);
    }
  }

  /** A number in k digits and what follows: the number decides, then the rest. */
  lemma {:induction false} FieldLess(m: int, n: int, k: nat, a: string, b: string)
    requires 0 <= m < Pow10(k) && 0 <= n < Pow10(k) && (m < n || (m == n && Less(a, b)))
    ensures Less(Padded(m, k) + a, Padded(n, k) + b)
  {
    if m < n {
      PaddedLess(m, n, k, a, b);
    } else {
      SamePrefix(Padded(m, k), a, b);
    }
  }
}
