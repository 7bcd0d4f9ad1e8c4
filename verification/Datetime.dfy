/** The proleptic Gregorian calendar of `datetime`: ordinals and dates are in order-preserving
    bijection, and adding a timedelta is undone by subtracting the datetime. */
module Datetime {
  import opened Common

  predicate Leap(y: int) { y % 4 == 0 && (y % 100 != 0 || y % 400 == 0) }

  /** `_dim`: days in a month. */
  function DaysInMonth(y: int, m: int): int
    requires 1 <= m <= 12
  {
    if m == 2 && Leap(y) then 29
    else [0, 31, 28, 31, 30, 31, 30, 31, 31, 30, 31, 30, 31][m]
  }

  /** `_dbm`: days of the year before a month. */
  function DaysBeforeMonth(y: int, m: int): int
    requires 1 <= m <= 12
  {
    [0, 0, 31, 59, 90, 120, 151, 181, 212, 243, 273, 304, 334][m] + (if m > 2 && Leap(y) then 1 else 0)
  }

  function DaysBeforeYear(y: int): int {
    var Y := y - 1;
    Y * 365 + Y / 4 - Y / 100 + Y / 400
  }

  /** A date of the calendar, with no ceiling on the year. */
  predicate ValidDate(y: int, m: int, d: int) {
    y >= 1 && 1 <= m <= 12 && 1 <= d <= DaysInMonth(y, m)
  }

  /** The ordinal formula of `_date`: 1 January of year 1 is day 1. */
  function Ordinal(y: int, m: int, d: int): int
    requires 1 <= m <= 12
  {
    DaysBeforeYear(y) + DaysBeforeMonth(y, m) + d
  }

  function DaysInYear(y: int): int { if Leap(y) then 366 else 365 }

  // ---------------------------------------------------------------- the tables

  /** Long and short months alternate, starting again in August; February has 28 or 29 days. */
  lemma MonthLengths(y: int, m: int)
    requires 1 <= m <= 12
    ensures m != 2 ==> DaysInMonth(y, m) == 30 + (m + m / 8) % 2
    ensures m == 2 ==> DaysInMonth(y, m) == DaysInYear(y) - 337
  {
    assert m in {1, 2, 3, 4, 5, 6, 7, 8, 9, 10, 11, 12};
  }

  /** Days in the first `m` months. */
  function MonthSum(y: int, m: int): int
    requires 0 <= m <= 12
  {
    if m == 0 then 0 else MonthSum(y, m - 1) + DaysInMonth(y, m)
  }

  /** The second table sums up the first, over a whole year too. */
  lemma {:induction false} MonthsAddUp(y: int, m: int)
    requires 0 <= m <= 12
    ensures MonthSum(y, m) == if m == 12 then DaysInYear(y) else DaysBeforeMonth(y, m + 1)
  {
    if m > 0 { MonthsAddUp(y, m - 1); }
  }

  /** Days counted in years that begin in March, where the leap day comes last. */
  function MarchDay(y: int, m: int, d: int): int {
    var Y, M := if m > 2 then y else y - 1, if m > 2 then m - 3 else m + 9;
    365 * Y + Y / 4 - Y / 100 + Y / 400 + (153 * M + 2) / 5 + d - 306
  }

  lemma MonthStarts(y: int, m: int)
    requires 2 < m <= 12
    ensures DaysBeforeMonth(y, m) == 59 + (153 * (m - 3) + 2) / 5 + (DaysInYear(y) - 365)
  {
    assert m in {3, 4, 5, 6, 7, 8, 9, 10, 11, 12};
  }

  lemma MultipleOf(x: int, q: int, k: int)
    requires (k == 4 || k == 100) && x == k * q
    ensures x % k == 0
  {
  }

  lemma Centuries(y: int)
    ensures y % 400 == 0 ==> y % 100 == 0
    ensures y % 100 == 0 ==> y % 4 == 0
  {
    if y % 400 == 0 { MultipleOf(y, y / 400 * 4, 100); }
    if y % 100 == 0 { MultipleOf(y, y / 100 * 25, 4); }
  }

  lemma NextQuotient(y: int, k: int)
    requires k == 4 || k == 100 || k == 400
    ensures y / k == (y - 1) / k + (if y % k == 0 then 1 else 0)
  {
  }

  lemma NextYear(y: int)
    ensures DaysBeforeYear(y + 1) == DaysBeforeYear(y) + DaysInYear(y)
  {
    NextQuotient(y, 4);
    NextQuotient(y, 100);
    NextQuotient(y, 400);
    Centuries(y);
    var Y := y - 1;
    assert y / 4 - y / 100 + y / 400 == Y / 4 - Y / 100 + Y / 400 + (if Leap(y) then 1 else 0);
  }

  /** Ordinals by a formula without tables, for every year and month. */
  lemma OrdinalFormula(y: int, m: int, d: int)
    requires 1 <= m <= 12
    ensures Ordinal(y, m, d) == MarchDay(y, m, d)
  {
    if m > 2 {
      MonthStarts(y, m);
      NextYear(y);
    }
  }

  /** The dates of the calendar and their ordinals without the tables: a year is as long as the
      formula says, and a month as long as the alternation says. */
  predicate IsDay(n: int, y: int, m: int, d: int) {
    var year := MarchDay(y + 1, 1, 1) - MarchDay(y, 1, 1);
    && y >= 1 && 1 <= m <= 12
    && 1 <= d <= (if m == 2 then year - 337 else 30 + (m + m / 8) % 2)
    && n == MarchDay(y, m, d)
  }

  lemma ValidByFormula(y: int, m: int, d: int)
    ensures ValidDate(y, m, d) <==> IsDay(MarchDay(y, m, d), y, m, d)
    ensures ValidDate(y, m, d) ==> IsDay(Ordinal(y, m, d), y, m, d)
  {
    OrdinalFormula(y, 1, 1);
    OrdinalFormula(y + 1, 1, 1);
    NextYear(y);
    hide MarchDay, DaysBeforeYear, DaysInYear, DaysInMonth;
    if 1 <= m <= 12 {
      MonthLengths(y, m);
      OrdinalFormula(y, m, d);
    }
  }

  // ---------------------------------------------------------------- order

  lemma {:induction false} LaterYear(y: int, y': int)
    requires y < y'
    ensures DaysBeforeYear(y) + DaysInYear(y) <= DaysBeforeYear(y')
    decreases y' - y
  {
    NextYear(y);
    if y + 1 < y' { LaterYear(y + 1, y'); }
  }

  lemma MonthsInOrder(y: int, m: int, m': int)
    requires 1 <= m < m' <= 12
    ensures DaysBeforeMonth(y, m) + DaysInMonth(y, m) <= DaysBeforeMonth(y, m')
  {
  }

  lemma YearEnds(y: int, m: int)
    requires 1 <= m <= 12
    ensures 0 <= DaysBeforeMonth(y, m) && DaysBeforeMonth(y, m) + DaysInMonth(y, m) <= DaysInYear(y)
  {
    if m < 12 { MonthsInOrder(y, m, 12); }
  }

  predicate Earlier(y: int, m: int, d: int, y': int, m': int, d': int) {
    y < y' || (y == y' && (m < m' || (m == m' && d < d')))
  }

  lemma EarlierIsLess(y: int, m: int, d: int, y': int, m': int, d': int)
    requires ValidDate(y, m, d) && ValidDate(y', m', d') && Earlier(y, m, d, y', m', d')
    ensures Ordinal(y, m, d) < Ordinal(y', m', d')
  {
    YearEnds(y, m);
    YearEnds(y', m');
    if y < y' { LaterYear(y, y'); } else if m < m' { MonthsInOrder(y, m, m'); }
  }

  /** Ordinals preserve the order of dates, in both directions. */
  lemma OrdinalPreservesOrder(y: int, m: int, d: int, y': int, m': int, d': int)
    requires ValidDate(y, m, d) && ValidDate(y', m', d')
    ensures Earlier(y, m, d, y', m', d') <==> Ordinal(y, m, d) < Ordinal(y', m', d')
  {
    if Earlier(y, m, d, y', m', d') { EarlierIsLess(y, m, d, y', m', d'); }
    if Earlier(y', m', d', y, m, d) { EarlierIsLess(y', m', d', y, m, d); }
  }

  lemma OrdinalUnique(y: int, m: int, d: int, y': int, m': int, d': int)
    requires ValidDate(y, m, d) && ValidDate(y', m', d') && Ordinal(y, m, d) == Ordinal(y', m', d')
    ensures y == y' && m == m' && d == d'
  {
    OrdinalPreservesOrder(y, m, d, y', m', d');
    OrdinalPreservesOrder(y', m', d', y, m, d);
  }

  // ---------------------------------------------------------------- from ordinals to dates

  /** Years counted by cycles: `a` of 400, `b` of 100, `c` of 4 and `e` single years. */
  lemma CycleYear(a: int, b: int, c: int, e: int)
    requires 0 <= b <= 3 && 0 <= c <= 24 && 0 <= e <= 3
    ensures var y := 400 * a + 100 * b + 4 * c + e + 1;
            && DaysBeforeYear(y) == 146_097 * a + 36_524 * b + 1_461 * c + 365 * e
            && (Leap(y) <==> e == 3 && (c != 24 || b == 3))
  {
    var Y := 400 * a + 100 * b + 4 * c + e;
    assert Y / 4 == 100 * a + 25 * b + c && Y % 4 == e;
    assert Y / 100 == 4 * a + b && Y % 100 == 4 * c + e;
    assert Y / 400 == a && Y % 400 == 100 * b + 4 * c + e;
    NextQuotient(Y + 1, 4);
    NextQuotient(Y + 1, 100);
    NextQuotient(Y + 1, 400);
  }

  /** The month guess is right or one too high. */
  lemma MonthGuess(y: int, n: int)
    requires 0 <= n <= 364
    ensures 1 <= (n + 50) / 32 <= 12
    ensures var m := (n + 50) / 32;
            if DaysBeforeMonth(y, m) > n
            then m > 1 && DaysBeforeMonth(y, m) - DaysInMonth(y, m - 1) == DaysBeforeMonth(y, m - 1) <= n
            else n < DaysBeforeMonth(y, m) + DaysInMonth(y, m)
  {
  }

  /** The last day of a cycle, where the division would start a year too many. */
  lemma LastDay(n0: int, n400: int, n100: int, n4: int, n1: int, n: int)
    requires n0 >= 1 && 0 <= n400 && 0 <= n100 <= 4 && 0 <= n4 <= 24 && 0 <= n1 <= 4 && 0 <= n < 365
    requires n0 - 1 == 146_097 * n400 + 36_524 * n100 + 1_461 * n4 + 365 * n1 + n
    requires 36_524 * n100 + 1_461 * n4 + 365 * n1 + n < 146_097
    requires 1_461 * n4 + 365 * n1 + n < 36_524 && 365 * n1 + n < 1_461
    requires n1 == 4 || n100 == 4
    ensures var y := 400 * n400 + 100 * n100 + 4 * n4 + n1;
            ValidDate(y, 12, 31) && Ordinal(y, 12, 31) == n0
  {
    if n100 == 4 {
      CycleYear(n400, 3, 24, 3);
    } else {
      CycleYear(n400, n100, n4, 3);
    }
  }

  /** `_o2ymd`: the date whose ordinal is `n`, for every `n` from 1 on. */
  method O2ymd(n0: int) returns (y: int, m: int, d: int)
    requires n0 >= 1
    ensures ValidDate(y, m, d) && Ordinal(y, m, d) == n0
    ensures IsDay(n0, y, m, d)
  {
    hide IsDay, DaysBeforeMonth, DaysInMonth, DaysBeforeYear, Leap;
    var n := n0 - 1;
    var n400 := n / 146_097;
    n := n % 146_097;
    y := n400 * 400 + 1;
    var n100 := n / 36_524;
    n := n % 36_524;
    var n4 := n / 1_461;
    n := n % 1_461;
    var n1 := n / 365;
    n := n % 365;
    y := y + n100 * 100 + n4 * 4 + n1;
    if n1 == 4 || n100 == 4 {
      LastDay(n0, n400, n100, n4, n1, n);
      ValidByFormula(y - 1, 12, 31);
      return y - 1, 12, 31;
    }
    CycleYear(n400, n100, n4, n1);
    MonthGuess(y, n);
    m := (n + 50) / 32;
    var prec := DaysBeforeMonth(y, m);
    if prec > n {
      m := m - 1;
      prec := prec - DaysInMonth(y, m);
    }
    n := n - prec;
    d := n + 1;
    ValidByFormula(y, m, d);
  }

  /** The two directions are inverse: a date goes to its ordinal and back. */
  method DateRoundTrip(y: int, m: int, d: int) returns (y': int, m': int, d': int)
    requires ValidDate(y, m, d)
    ensures (y', m', d') == (y, m, d)
  {
    assert Ordinal(y, m, d) >= 1 by {
      YearEnds(y, m);
      if y > 1 { LaterYear(1, y); }
    }
    y', m', d' := O2ymd(Ordinal(y, m, d));
    OrdinalUnique(y, m, d, y', m', d');
  }

  // ---------------------------------------------------------------- the constructors' range

  const MINYEAR := 1
  const MAXYEAR := 9_999
  const MAX_ORDINAL := 3_652_059

  /** `_date(y, m, d)`: an ordinal from a date, or from an ordinal given as `(0, 0, d)`; None is
      ValueError. */
  function Date(y: int, m: int, d: int): Option<int> {
    if MINYEAR <= y <= MAXYEAR && 1 <= m <= 12 && 1 <= d <= DaysInMonth(y, m) then Some(Ordinal(y, m, d))
    else if y == 0 && m == 0 && 1 <= d <= MAX_ORDINAL then Some(d)
    else None
  }

  lemma RangeEnds()
    ensures ValidDate(MAXYEAR, 12, 31) && Ordinal(MAXYEAR, 12, 31) == MAX_ORDINAL
    ensures ValidDate(MINYEAR, 1, 1) && Ordinal(MINYEAR, 1, 1) == 1
  {
    CycleYear(24, 3, 24, 2);
    CycleYear(0, 0, 0, 0);
    hide DaysBeforeYear, Leap;
  }

  /** Both forms produce the same range of ordinals, each exactly once per date. */
  lemma DateRange(y: int, m: int, d: int)
    ensures Date(y, m, d).Some? ==> 1 <= Date(y, m, d).value <= MAX_ORDINAL
    ensures Date(MAXYEAR, 12, 31) == Some(MAX_ORDINAL) && Date(MINYEAR, 1, 1) == Some(1)
    ensures ValidDate(y, m, d) && y > MAXYEAR ==> Ordinal(y, m, d) > MAX_ORDINAL
  {
    RangeEnds();
    hide Ordinal;
    if 1 <= m <= 12 && ValidDate(y, m, d) {
      OrdinalPreservesOrder(MAXYEAR, 12, 31, y, m, d);
      OrdinalPreservesOrder(y, m, d, MINYEAR, 1, 1);
    }
  }

  /** What `_date` accepts, by the formulas without tables. */
  lemma DateIff(y: int, m: int, d: int, n: int)
    ensures Date(y, m, d) == Some(n)
            <==> (y <= 9_999 && IsDay(n, y, m, d)) || (y == 0 && m == 0 && d == n && 1 <= n <= 3_652_059)
  {
    ValidByFormula(y, m, d);
    if 1 <= m <= 12 { OrdinalFormula(y, m, d); }
    hide MarchDay, DaysBeforeYear, DaysBeforeMonth, DaysInMonth;
  }

  // ---------------------------------------------------------------- datetime arithmetic

  const DAY_US := 86_400_000_000

  /** A naive datetime: ordinal of its day and microseconds into it. */
  datatype DateTime = DateTime(day: int, us: int)
  {
    predicate Valid() { 1 <= day <= MAX_ORDINAL && 0 <= us < DAY_US }

    /** Microseconds since the start of day 0. */
    function Instant(): int { day * DAY_US + us }
  }

  /** `datetime.__add__` with the constructor's range check; a timedelta is its microseconds. */
  function Add(dt: DateTime, td: int): Option<DateTime> {
    var us := dt.us + td;
    var d := us / DAY_US + dt.day;
    if 1 <= d <= MAX_ORDINAL then Some(DateTime(d, us % DAY_US)) else None
  }

  /** `timedelta(days, seconds, microseconds)` as microseconds. */
  function Timedelta(days: int, seconds: int, us: int): int {
    var s := (days * 24) * 60 * 60 + seconds;
    (s * 1000) * 1000 + us
  }

  /** `datetime.__sub__` of two naive datetimes. */
  function Sub(a: DateTime, b: DateTime): int {
    var D := a.day - b.day;
    var us := a.us - b.us;
    Timedelta(D + us / DAY_US, 0, us % DAY_US)
  }

  lemma SubIsDistance(a: DateTime, b: DateTime)
    ensures Sub(a, b) == a.Instant() - b.Instant()
  {
  }

  /** Adding moves the instant, inside the supported range and only there. */
  lemma AddMoves(dt: DateTime, td: int)
    requires dt.Valid()
    ensures Add(dt, td).Some? <==> DAY_US <= dt.Instant() + td < (MAX_ORDINAL + 1) * DAY_US
    ensures Add(dt, td).Some? ==> Add(dt, td).value.Valid() && Add(dt, td).value.Instant() == dt.Instant() + td
  {
  }

  lemma InstantUnique(a: DateTime, b: DateTime)
    requires a.Valid() && b.Valid() && a.Instant() == b.Instant()
    ensures a == b
  {
  }

  /** `(dt + td) - dt == td`, and `dt + (other - dt) == other`. */
  lemma AddSubInverse(dt: DateTime, td: int, other: DateTime)
    requires dt.Valid() && other.Valid()
    ensures Add(dt, td).Some? ==> Sub(Add(dt, td).value, dt) == td
    ensures Add(dt, Sub(other, dt)) == Some(other)
  {
    AddMoves(dt, td);
    if Add(dt, td).Some? { SubIsDistance(Add(dt, td).value, dt); }
    SubIsDistance(other, dt);
    AddMoves(dt, Sub(other, dt));
    InstantUnique(Add(dt, Sub(other, dt)).value, other);
  }
}
