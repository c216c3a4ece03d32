/** UTC calendar dates as Go's time package computes them (proleptic Gregorian),
    and the "2006/01/02" layout used in every chunk and index key. */
module Calendar {
  import opened Seqs

  const NANOS_PER_SECOND := 1_000_000_000
  const NANOS_PER_DAY := 86_400_000_000_000

  /** Days since 1970-01-01 UTC: t.UTC().Truncate(24 * time.Hour). */
  function Day(t: int): int { t / NANOS_PER_DAY }

  /** t.Unix() */
  function UnixSeconds(t: int): int { t / NANOS_PER_SECOND }

  datatype Date = Date(year: int, month: int, day: int)

  predicate IsLeap(y: int) {
    y % 4 == 0 && (y % 100 != 0 || y % 400 == 0)
  }

  function DaysInMonth(y: int, m: int): int {
    if m == 2 then (if IsLeap(y) then 29 else 28)
    else if m == 4 || m == 6 || m == 9 || m == 11 then 30
    else 31
  }

  ghost predicate ValidDate(d: Date) {
    1 <= d.month <= 12 && 1 <= d.day <= DaysInMonth(d.year, d.month)
  }

  /** The calendar's successor rule, independent of any day-number formula. */
  function NextDate(d: Date): Date {
    if d.day < DaysInMonth(d.year, d.month) then Date(d.year, d.month, d.day + 1)
    else if d.month < 12 then Date(d.year, d.month + 1, 1)
    else Date(d.year + 1, 1, 1)
  }

  /** Days before month m of a year, and (m == 13) the length of the year. */
  function DaysBeforeMonth(y: int, m: int): int
    requires 1 <= m <= 13
  {
    if m == 1 then 0 else DaysBeforeMonth(y, m - 1) + DaysInMonth(y, m - 1)
  }

  /** Month containing day-of-year doy, searching from month m on. */
  function MonthFrom(y: int, doy: int, m: int): (r: int)
    requires 1 <= m <= 12
    requires DaysBeforeMonth(y, m) <= doy < DaysBeforeMonth(y, 13)
    ensures m <= r <= 12
    ensures DaysBeforeMonth(y, r) <= doy < DaysBeforeMonth(y, r + 1)
    decreases 12 - m
  {
    if doy < DaysBeforeMonth(y, m + 1) then m else MonthFrom(y, doy, m + 1)
  }

  lemma YearLength(y: int)
    ensures DaysBeforeMonth(y, 13) == if IsLeap(y) then 366 else 365
  {
    var feb := DaysInMonth(y, 2);
    assert DaysBeforeMonth(y, 2) == 31;
    assert DaysBeforeMonth(y, 3) == 31 + feb;
    assert DaysBeforeMonth(y, 5) == 92 + feb;
    assert DaysBeforeMonth(y, 7) == 153 + feb;
    assert DaysBeforeMonth(y, 9) == 215 + feb;
    assert DaysBeforeMonth(y, 11) == 276 + feb;
  }

  /** The cycle digits of day doe of a 400-year era, and the day of the year: centuries,
      4-year cycles, years, rest. */
  function Cycles(doe: int): (r: (int, int, int, int))
    requires 0 <= doe < 146097
    ensures var (c, q, y, doy) := r;
      && 0 <= c <= 3 && 0 <= q <= 24 && 0 <= y <= 3
      && doe == 36524 * c + 1461 * q + 365 * y + doy
      && 0 <= doy < (if y == 3 && (q != 24 || c == 3) then 366 else 365)
  {
    var (c, doc) := Peel(doe, 36524, 3);
    var (q, doq) := Peel(doc, 1461, 24);
    var (y, doy) := Peel(doq, 365, 3);
    (c, q, y, doy)
  }

  /** As many cycles of length days as fit into n, at most most, and the rest. */
  function Peel(n: int, length: int, most: nat): (r: (int, int))
    requires 0 <= n && 0 < length
    ensures 0 <= r.0 <= most && 0 <= r.1 && n == length * r.0 + r.1 && (r.0 < most ==> r.1 < length)
    decreases most
  {
    if most == 0 || n < length then (0, n)
    else
      var (k, rest) := Peel(n - length, length, most - 1);
      (k + 1, rest)
  }

  /** Year and day of the year of a day number, peeling off 400-, 100-, 4- and
      1-year cycles from 1 January of year 1. */
  function YearAndDay(n: int): (int, int) {
    var z := n + 719162;
    var (c, q, y, doy) := Cycles(z % 146097);
    (400 * (z / 146097) + 100 * c + 4 * q + y + 1, doy)
  }

  /** Days from 1970-01-01 to 1 January of year y. */
  function YearStart(y: int): int {
    365 * (y - 1) + (y - 1) / 4 - (y - 1) / 100 + (y - 1) / 400 - 719162
  }

  /** Leap-day counts of the year with cycle digits era, c, q, y. */
  lemma CycleDigits(era: int, c: int, q: int, y: int)
    requires 0 <= c <= 3 && 0 <= q <= 24 && 0 <= y <= 3
    ensures var p := 400 * era + 100 * c + 4 * q + y;
            p / 4 == 100 * era + 25 * c + q && p / 100 == 4 * era + c && p / 400 == era
    ensures IsLeap(400 * era + 100 * c + 4 * q + y + 1) <==> y == 3 && (q != 24 || c == 3)
  {
    var p := 400 * era + 100 * c + 4 * q + y;
    assert p == 4 * (100 * era + 25 * c + q) + y;
    assert p == 100 * (4 * era + c) + (4 * q + y);
    assert p == 400 * era + (100 * c + 4 * q + y);
  }

  lemma YearAndDayCorrect(n: int)
    ensures var (y, doy) := YearAndDay(n);
            0 <= doy < DaysBeforeMonth(y, 13) && n == YearStart(y) + doy
  {
    var z := n + 719162;
    var (c, q, y, doy) := Cycles(z % 146097);
    CyclesAdd(z / 146097, z % 146097, c, q, y, doy, YearAndDay(n).0, n);
  }

  lemma CyclesAdd(era: int, doe: int, c: int, q: int, y: int, doy: int, year: int, n: int)
    requires 0 <= c <= 3 && 0 <= q <= 24 && 0 <= y <= 3
    requires doe == 36524 * c + 1461 * q + 365 * y + doy
    requires 0 <= doy < (if y == 3 && (q != 24 || c == 3) then 366 else 365)
    requires year == 400 * era + 100 * c + 4 * q + y + 1 && n + 719162 == 146097 * era + doe
    ensures 0 <= doy < DaysBeforeMonth(year, 13) && n == YearStart(year) + doy
  {
    CycleYear(era, c, q, y);
  }

  /** First day and length of the year with these cycle digits. */
  lemma CycleYear(era: int, c: int, q: int, y: int)
    requires 0 <= c <= 3 && 0 <= q <= 24 && 0 <= y <= 3
    ensures var year := 400 * era + 100 * c + 4 * q + y + 1;
            && YearStart(year) == 146097 * era + 36524 * c + 1461 * q + 365 * y - 719162
            && DaysBeforeMonth(year, 13) == if y == 3 && (q != 24 || c == 3) then 366 else 365
  {
    CycleDigits(era, c, q, y);
    YearLength(400 * era + 100 * c + 4 * q + y + 1);
  }

  /** Calendar date of a day number. */
  function DateOf(n: int): Date {
    var (y, doy) := YearAndDay(n);
    YearAndDayCorrect(n);
    var m := MonthFrom(y, doy, 1);
    Date(y, m, doy - DaysBeforeMonth(y, m) + 1)
  }

  /** Day number of a calendar date: the inverse of DateOf. */
  function DayNumber(d: Date): int
    requires ValidDate(d)
  {
    YearStart(d.year) + DaysBeforeMonth(d.year, d.month) + d.day - 1
  }

  lemma DateRoundTrip(n: int)
    ensures ValidDate(DateOf(n)) && DayNumber(DateOf(n)) == n
  {
    YearAndDayCorrect(n);
  }

  lemma YearStartStep(y: int)
    ensures YearStart(y + 1) == YearStart(y) + DaysBeforeMonth(y, 13)
  {
    YearLength(y);
    Every4(y);
    Every100(y);
    Every400(y);
  }

  lemma Every4(y: int)
    ensures y / 4 == (y - 1) / 4 + if y % 4 == 0 then 1 else 0
  {
  }

  lemma Every100(y: int)
    ensures y / 100 == (y - 1) / 100 + if y % 100 == 0 then 1 else 0
    ensures y % 100 == 0 ==> y % 4 == 0
  {
  }

  lemma Every400(y: int)
    ensures y / 400 == (y - 1) / 400 + if y % 400 == 0 then 1 else 0
    ensures y % 400 == 0 ==> y % 100 == 0
  {
  }

  lemma {:induction false} YearStartMonotone(y: int, y': int)
    requires y < y'
    ensures YearStart(y) + DaysBeforeMonth(y, 13) <= YearStart(y')
    decreases y' - y
  {
    YearStartStep(y);
    if y + 1 < y' {
      YearLength(y + 1);
      YearStartMonotone(y + 1, y');
    }
  }

  lemma {:induction false} MonthMonotone(y: int, m: int, m': int)
    requires 1 <= m < m' <= 13
    ensures DaysBeforeMonth(y, m) + DaysInMonth(y, m) <= DaysBeforeMonth(y, m')
    decreases m' - m
  {
    if m + 1 < m' {
      MonthMonotone(y, m + 1, m');
    }
  }

  /** A day number names one date only. */
  lemma DayNumberInjective(a: Date, b: Date)
    requires ValidDate(a) && ValidDate(b) && DayNumber(a) == DayNumber(b)
    ensures a == b
  {
    MonthMonotone(a.year, a.month, 13);
    MonthMonotone(b.year, b.month, 13);
    DaysBeforeMonthNonNegative(a.year, a.month);
    DaysBeforeMonthNonNegative(b.year, b.month);
    if a.year < b.year {
      YearStartMonotone(a.year, b.year);
    } else if b.year < a.year {
      YearStartMonotone(b.year, a.year);
    } else if a.month < b.month {
      MonthMonotone(a.year, a.month, b.month);
    } else if b.month < a.month {
      MonthMonotone(a.year, b.month, a.month);
    }
  }

  lemma {:induction false} DaysBeforeMonthNonNegative(y: int, m: int)
    requires 1 <= m <= 13
    ensures 0 <= DaysBeforeMonth(y, m)
  {
    if m > 1 { DaysBeforeMonthNonNegative(y, m - 1); }
  }

  lemma Epoch()
    ensures DateOf(0) == Date(1970, 1, 1)
  {
    var d := Date(1970, 1, 1);
    assert DayNumber(d) == 0;
    DateRoundTrip(0);
    DayNumberInjective(DateOf(0), d);
  }

  /** DateOf is the Gregorian calendar: day 0 is 1970-01-01 (Epoch) and each day
      is followed by its calendar successor, forwards and backwards without end. */
  lemma DateOfSuccessor(n: int)
    ensures DateOf(n + 1) == NextDate(DateOf(n))
  {
    DateRoundTrip(n);
    DateRoundTrip(n + 1);
    NextDateNumber(DateOf(n));
    DayNumberInjective(DateOf(n + 1), NextDate(DateOf(n)));
  }

  lemma NextDateNumber(d: Date)
    requires ValidDate(d)
    ensures ValidDate(NextDate(d)) && DayNumber(NextDate(d)) == DayNumber(d) + 1
  {
    if d.day == DaysInMonth(d.year, d.month) && d.month == 12 {
      YearStartStep(d.year);
    }
  }

  /** Decimal digits of n. */
  function Decimal(n: nat): (s: string)
    ensures s != [] && forall c | c in s :: '0' <= c <= '9'
  {
    if n < 10 then ['0' + n as char] else Decimal(n / 10) + ['0' + (n % 10) as char]
  }

  /** "%d" */
  function IntText(n: int): (s: string)
    ensures s != [] && forall c | c in s :: c == '-' || '0' <= c <= '9'
  {
    if n < 0 then ['-'] + Decimal(-n) else Decimal(n)
  }

  /** Zero padding to at least two or four digits, as the Go layout does. */
  function PadTo(s: string, width: nat): (r: string)
    requires forall c | c in s :: '0' <= c <= '9'
    ensures |r| >= width && |r| >= |s| && forall c | c in r :: '0' <= c <= '9'
    ensures |s| <= width ==> |r| == width
    decreases width - |s|
  {
    if |s| >= width then s else PadTo(['0'] + s, width)
  }

  function YearText(y: int): (s: string)
    ensures |s| >= 4 && forall c | c in s :: c == '-' || '0' <= c <= '9'
  {
    if y < 0 then ['-'] + PadTo(Decimal(-y), 4) else PadTo(Decimal(y), 4)
  }

  function TwoDigits(n: nat): (s: string)
    requires n < 100
    ensures |s| == 2 && forall c | c in s :: '0' <= c <= '9'
  {
    assert n >= 10 ==> |Decimal(n / 10)| == 1;
    PadTo(Decimal(n), 2)
  }

  /** Numeric value of a digit string. */
  function Value(s: string): int {
    if s == [] then 0 else 10 * Value(s[..|s| - 1]) + (s[|s| - 1] as int - '0' as int)
  }

  lemma {:induction false} ValueDecimal(n: nat)
    ensures Value(Decimal(n)) == n
  {
    if n >= 10 {
      ValueDecimal(n / 10);
      assert Decimal(n)[..|Decimal(n)| - 1] == Decimal(n / 10);
    }
  }

  lemma {:induction false} ValueLeadingZero(s: string)
    ensures Value(['0'] + s) == Value(s)
  {
    if s != [] {
      var t := ['0'] + s;
      assert t[..|t| - 1] == ['0'] + s[..|s| - 1];
      ValueLeadingZero(s[..|s| - 1]);
    }
  }

  lemma {:induction false} ValuePadTo(s: string, width: nat)
    requires forall c | c in s :: '0' <= c <= '9'
    ensures Value(PadTo(s, width)) == Value(s)
    decreases width - |s|
  {
    if |s| < width {
      ValuePadTo(['0'] + s, width);
      ValueLeadingZero(s);
    }
  }

  lemma YearTextInjective(a: int, b: int)
    requires YearText(a) == YearText(b)
    ensures a == b
  {
    var s, t := YearText(a), YearText(b);
    var da := Decimal(if a < 0 then -a else a);
    var db := Decimal(if b < 0 then -b else b);
    ValueDecimal(if a < 0 then -a else a);
    ValueDecimal(if b < 0 then -b else b);
    ValuePadTo(da, 4);
    ValuePadTo(db, 4);
    assert PadTo(da, 4)[0] != '-' && PadTo(db, 4)[0] != '-' by {
      assert PadTo(da, 4)[0] in PadTo(da, 4) && PadTo(db, 4)[0] in PadTo(db, 4);
    }
    if a < 0 {
      assert s[1..] == PadTo(da, 4) && t[1..] == PadTo(db, 4);
    }
  }

  lemma TwoDigitsInjective(a: nat, b: nat)
    requires a < 100 && b < 100 && TwoDigits(a) == TwoDigits(b)
    ensures a == b
  {
    ValueDecimal(a);
    ValueDecimal(b);
    ValuePadTo(Decimal(a), 2);
    ValuePadTo(Decimal(b), 2);
  }

  /** Year, month and day text of a day number. */
  function DayParts(n: int): (parts: seq<string>)
    ensures |parts| == 3 && |parts[0]| >= 4 && |parts[1]| == 2 && |parts[2]| == 2
    ensures forall p | p in parts :: forall c | c in p :: c == '-' || '0' <= c <= '9'
  {
    DateRoundTrip(n);
    var d := DateOf(n);
    [YearText(d.year), TwoDigits(d.month), TwoDigits(d.day)]
  }

  lemma DayPartsInjective(m: int, n: int)
    requires DayParts(m) == DayParts(n)
    ensures m == n
  {
    DateRoundTrip(m);
    DateRoundTrip(n);
    var a, b := DateOf(m), DateOf(n);
    assert DayParts(m)[0] == DayParts(n)[0] && DayParts(m)[1] == DayParts(n)[1] && DayParts(m)[2] == DayParts(n)[2];
    YearTextInjective(a.year, b.year);
    TwoDigitsInjective(a.month, b.month);
    TwoDigitsInjective(a.day, b.day);
  }

  /** t.UTC().Format("2006/01/02") for a time on day n. */
  function DayText(n: int): string { Join(DayParts(n), '/') }

  /** Digits of a number, at least width of them. */
  ghost predicate Reads(s: string, width: nat, n: int) {
    |s| >= width && (forall c | c in s :: '0' <= c <= '9') && Value(s) == n
  }

  /** year, month and day spell the date d as YYYY, MM and DD. */
  ghost predicate Spells(year: string, month: string, day: string, d: Date) {
    && Reads(year, 4, d.year) && Reads(month, 2, d.month) && Reads(day, 2, d.day)
    && |month| == 2 && |day| == 2
  }

  /** The day's text is its calendar date: year, month, day, in that order. */
  lemma DayTextReads(n: int) returns (year: string, month: string, day: string)
    requires DateOf(n).year >= 0
    ensures DayText(n) == year + "/" + month + "/" + day
    ensures Spells(year, month, day, DateOf(n)) && ValidDate(DateOf(n)) && DayNumber(DateOf(n)) == n
  {
    DateRoundTrip(n);
    var d := DateOf(n);
    year, month, day := YearText(d.year), TwoDigits(d.month), TwoDigits(d.day);
    ValueDecimal(d.year);
    ValuePadTo(Decimal(d.year), 4);
    ValueDecimal(d.month);
    ValuePadTo(Decimal(d.month), 2);
    ValueDecimal(d.day);
    ValuePadTo(Decimal(d.day), 2);
    JoinThree(year, month, day);
    assert DayParts(n) == [year, month, day];
  }

  lemma JoinThree(a: string, b: string, c: string)
    ensures Join([a, b, c], '/') == a + "/" + b + "/" + c
  {
    assert [a, b, c][1..] == [b, c] && [b, c][1..] == [c];
    assert Join([b, c], '/') == b + ['/'] + c;
  }

  /** The whole second a time lies in. */
  lemma SecondsExact(t: int)
    ensures UnixSeconds(t) * 1_000_000_000 <= t < (UnixSeconds(t) + 1) * 1_000_000_000
    ensures Day(t) * 86_400_000_000_000 <= t < (Day(t) + 1) * 86_400_000_000_000
  {
  }
}
