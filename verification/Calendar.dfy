/** Whole-day Gregorian calendar arithmetic behind the leave accrual periods.
    A day is the number of days since Monday 1 January of year 1, so day 0 is Go's zero time. */
module Calendar {

  type Day = int

  const ZERO_TIME: Day := 0

  datatype Civil = Civil(year: int, month: int, day: int)

  datatype AccrualPeriod = Weekly | Monthly | Yearly | Unsupported

  predicate Leap(y: int) {
    y % 4 == 0 && (y % 100 != 0 || y % 400 == 0)
  }

  function YearStart(y: int): Day {
    365 * (y - 1) + (y - 1) / 4 - (y - 1) / 100 + (y - 1) / 400
  }

  /** Days of a year before its month m; month 13 is the first of the next year. */
  function DaysBefore(leap: bool, m: int): int
    requires 1 <= m <= 13
  {
    [0, 31, 59, 90, 120, 151, 181, 212, 243, 273, 304, 334, 365][m - 1] + (if m > 2 && leap then 1 else 0)
  }

  function MonthStart(y: int, m: int): Day
    requires 1 <= m <= 13
  {
    YearStart(y) + DaysBefore(Leap(y), m)
  }

  /** time.Date: a day outside the month carries linearly into its neighbours, and month 13 into the next year. */
  function Date(y: int, m: int, d: int): Day
    requires 1 <= m <= 13
  {
    MonthStart(y, m) + d - 1
  }

  /** The year holding a day, by 400-, 100-, 4- and 1-year cycles. */
  function YearOf(d: Day): int {
    var n400, r400 := d / 146097, d % 146097;
    var n100 := if r400 / 36524 == 4 then 3 else r400 / 36524;
    var r100 := r400 - 36524 * n100;
    var n4, r4 := r100 / 1461, r100 % 1461;
    var n1 := if r4 / 365 == 4 then 3 else r4 / 365;
    400 * n400 + 100 * n100 + 4 * n4 + n1 + 1
  }

  /** The month holding a day of the year counted from 0. */
  function MonthOf(leap: bool, yearDay: int): (m: int)
    ensures 1 <= m <= 12
    ensures 0 <= yearDay < DaysBefore(leap, 13) ==> DaysBefore(leap, m) <= yearDay < DaysBefore(leap, m + 1)
  {
    if yearDay < DaysBefore(leap, 2) then 1
    else if yearDay < DaysBefore(leap, 3) then 2
    else if yearDay < DaysBefore(leap, 4) then 3
    else if yearDay < DaysBefore(leap, 5) then 4
    else if yearDay < DaysBefore(leap, 6) then 5
    else if yearDay < DaysBefore(leap, 7) then 6
    else if yearDay < DaysBefore(leap, 8) then 7
    else if yearDay < DaysBefore(leap, 9) then 8
    else if yearDay < DaysBefore(leap, 10) then 9
    else if yearDay < DaysBefore(leap, 11) then 10
    else if yearDay < DaysBefore(leap, 12) then 11
    else 12
  }

  function CivilOf(d: Day): (c: Civil)
    ensures 1 <= c.month <= 12
  {
    var y := YearOf(d);
    var m := MonthOf(Leap(y), d - YearStart(y));
    Civil(y, m, d - MonthStart(y, m) + 1)
  }

  predicate ValidCivil(c: Civil) {
    1 <= c.month <= 12 && 1 <= c.day <= DaysBefore(Leap(c.year), c.month + 1) - DaysBefore(Leap(c.year), c.month)
  }

  /** time.Weekday: Sunday is 0. */
  function Weekday(d: Day): int {
    (d + 1) % 7
  }

  lemma DivMod4(n: int, q: int, r: int)
    requires n == 4 * q + r && 0 <= r < 4
    ensures n / 4 == q && n % 4 == r
  {
  }

  lemma DivMod100(n: int, q: int, r: int)
    requires n == 100 * q + r && 0 <= r < 100
    ensures n / 100 == q && n % 100 == r
  {
  }

  lemma DivMod400(n: int, q: int, r: int)
    requires n == 400 * q + r && 0 <= r < 400
    ensures n / 400 == q && n % 400 == r
  {
  }

  /** Every year has a place in the 400-, 100-, 4- and 1-year cycles. */
  lemma CycleOf(y: int) returns (q: int, a: int, b: int, c: int)
    ensures 0 <= a <= 3 && 0 <= b <= 24 && 0 <= c <= 3
    ensures y == 400 * q + 100 * a + 4 * b + c + 1
  {
    var n := y - 1;
    q := n / 400;
    var r := n - 400 * q;
    assert 0 <= r < 400;
    a := r / 100;
    var s := r - 100 * a;
    assert 0 <= s < 100;
    b := s / 4;
    c := s - 4 * b;
  }

  /** The start and leapness of a year given by its place in the cycles. */
  lemma CycleYear(q: int, a: int, b: int, c: int)
    requires 0 <= a <= 3 && 0 <= b <= 24 && 0 <= c <= 3
    ensures var y := 400 * q + 100 * a + 4 * b + c + 1;
      YearStart(y) == 146097 * q + 36524 * a + 1461 * b + 365 * c
      && (Leap(y) <==> c == 3 && (b < 24 || a == 3))
  {
    var n := 400 * q + 100 * a + 4 * b + c;
    DivMod4(n, 100 * q + 25 * a + b, c);
    DivMod100(n, 4 * q + a, 4 * b + c);
    DivMod400(n, q, 100 * a + 4 * b + c);
    CycleLeap(q, a, b, c);
  }

  lemma CycleLeap(q: int, a: int, b: int, c: int)
    requires 0 <= a <= 3 && 0 <= b <= 24 && 0 <= c <= 3
    ensures Leap(400 * q + 100 * a + 4 * b + c + 1) <==> c == 3 && (b < 24 || a == 3)
  {
  }

  lemma YearLength(y: int)
    ensures YearStart(y + 1) - YearStart(y) == DaysBefore(Leap(y), 13)
  {
    var q, a, b, c := CycleOf(y);
    CycleYear(q, a, b, c);
    if c < 3 {
      CycleYear(q, a, b, c + 1);
    } else if b < 24 {
      CycleYear(q, a, b + 1, 0);
    } else if a < 3 {
      CycleYear(q, a + 1, 0, 0);
    } else {
      CycleYear(q + 1, 0, 0, 0);
    }
  }

  lemma {:induction false} YearsGrow(y: int, z: int)
    requires y <= z
    ensures YearStart(y) + 365 * (z - y) <= YearStart(z)
    decreases z - y
  {
    if y < z {
      YearsGrow(y, z - 1);
      YearLength(z - 1);
    }
  }

  /** The cycle position YearOf finds for a day, with the day of the year left over. */
  lemma DayInCycle(d: Day) returns (q: int, a: int, b: int, c: int, rest: int)
    ensures 0 <= a <= 3 && 0 <= b <= 24 && 0 <= c <= 3
    ensures YearOf(d) == 400 * q + 100 * a + 4 * b + c + 1
    ensures d == 146097 * q + 36524 * a + 1461 * b + 365 * c + rest
    ensures 0 <= rest < 365 || (rest == 365 && c == 3 && (b < 24 || a == 3))
  {
    q := d / 146097;
    var r400 := d % 146097;
    a := if r400 / 36524 == 4 then 3 else r400 / 36524;
    var r100 := r400 - 36524 * a;
    b := r100 / 1461;
    var r4 := r100 % 1461;
    c := if r4 / 365 == 4 then 3 else r4 / 365;
    rest := r4 - 365 * c;
  }

  lemma YearBrackets(d: Day)
    ensures YearStart(YearOf(d)) <= d < YearStart(YearOf(d) + 1)
  {
    var q, a, b, c, rest := DayInCycle(d);
    CycleYear(q, a, b, c);
    YearLength(YearOf(d));
  }

  lemma YearUnique(d: Day, y: int)
    requires YearStart(y) <= d < YearStart(y + 1)
    ensures YearOf(d) == y
  {
    YearBrackets(d);
    if YearOf(d) < y {
      YearsGrow(YearOf(d) + 1, y);
    } else if y < YearOf(d) {
      YearsGrow(y + 1, YearOf(d));
    }
  }

  /** A day of the year lies in one month only. */
  lemma MonthUnique(leap: bool, yearDay: int, m: int)
    requires 1 <= m <= 12 && DaysBefore(leap, m) <= yearDay < DaysBefore(leap, m + 1)
    ensures 0 <= yearDay < DaysBefore(leap, 13) && MonthOf(leap, yearDay) == m
  {
  }

  /** A date decomposes into a valid civil date that time.Date maps back to it. */
  lemma CivilRoundTrip(d: Day)
    ensures var c := CivilOf(d); ValidCivil(c) && Date(c.year, c.month, c.day) == d
  {
    YearBrackets(d);
    YearLength(YearOf(d));
  }

  /** ...and no other valid civil date does. */
  lemma CivilUnique(c: Civil)
    requires ValidCivil(c)
    ensures CivilOf(Date(c.year, c.month, c.day)) == c
  {
    var d := Date(c.year, c.month, c.day);
    MonthUnique(Leap(c.year), d - YearStart(c.year), c.month);
    YearLength(c.year);
    YearUnique(d, c.year);
  }

  function AccrualPeriodStart(now: Day, period: AccrualPeriod): Day {
    var c := CivilOf(now);
    match period
    case Weekly =>
      var weekday := if Weekday(now) == 0 then 7 else Weekday(now);
      Date(c.year, c.month, c.day - weekday + 1)
    case Monthly => Date(c.year, c.month, 1)
    case Yearly => Date(c.year, 1, 1)
    case Unsupported => ZERO_TIME
  }

  /** periodStart.AddDate with one week, month or year. */
  function PeriodEnd(start: Day, period: AccrualPeriod): Day
    requires !period.Unsupported?
  {
    var c := CivilOf(start);
    match period
    case Weekly => Date(c.year, c.month, c.day + 7)
    case Monthly => Date(c.year, c.month + 1, c.day)
    case Yearly => Date(c.year + 1, c.month, c.day)
  }

  lemma DateShift(d: Day, k: int)
    ensures var c := CivilOf(d); Date(c.year, c.month, c.day + k) == d + k
  {
  }

  lemma SundayLast(d: Day)
    ensures (if Weekday(d) == 0 then 7 else Weekday(d)) == d % 7 + 1
  {
  }

  lemma WeekBounds(now: Day)
    ensures AccrualPeriodStart(now, Weekly) == now - now % 7
    ensures PeriodEnd(AccrualPeriodStart(now, Weekly), Weekly) == now - now % 7 + 7
  {
    SundayLast(now);
    DateShift(now, -(now % 7));
    DateShift(now - now % 7, 7);
  }

  lemma WeekUnique(now: Day, other: Day)
    requires now - now % 7 <= other < now - now % 7 + 7
    ensures other - other % 7 == now - now % 7
  {
  }

  lemma MonthBounds(now: Day)
    ensures var c := CivilOf(now);
      AccrualPeriodStart(now, Monthly) == MonthStart(c.year, c.month) <= now
      && now < PeriodEnd(AccrualPeriodStart(now, Monthly), Monthly) == MonthStart(c.year, c.month + 1)
  {
    var c := CivilOf(now);
    CivilRoundTrip(now);
    CivilUnique(Civil(c.year, c.month, 1));
  }

  lemma YearBounds(now: Day)
    ensures var y := YearOf(now);
      AccrualPeriodStart(now, Yearly) == YearStart(y) <= now
      && now < PeriodEnd(AccrualPeriodStart(now, Yearly), Yearly) == YearStart(y + 1)
  {
    var y := YearOf(now);
    YearBrackets(now);
    CivilUnique(Civil(y, 1, 1));
  }

  /** The period start brackets its date from below within one period. */
  lemma PeriodBrackets(now: Day, period: AccrualPeriod)
    requires !period.Unsupported?
    ensures var s := AccrualPeriodStart(now, period); s <= now < PeriodEnd(s, period)
  {
    match period
    case Weekly => WeekBounds(now);
    case Monthly => MonthBounds(now);
    case Yearly => YearBounds(now);
  }

  lemma MonthConstant(other: Day, y: int, m: int)
    requires 1 <= m <= 12 && MonthStart(y, m) <= other < MonthStart(y, m + 1)
    ensures CivilOf(other) == Civil(y, m, other - MonthStart(y, m) + 1)
  {
    var c := Civil(y, m, other - MonthStart(y, m) + 1);
    assert DaysBefore(Leap(y), m) <= other - YearStart(y) < DaysBefore(Leap(y), m + 1);
    assert Date(c.year, c.month, c.day) == other;
    CivilUnique(c);
  }

  lemma WeekConstant(now: Day, other: Day)
    ensures var s := AccrualPeriodStart(now, Weekly);
      s <= other < PeriodEnd(s, Weekly) ==> AccrualPeriodStart(other, Weekly) == s
  {
    WeekBounds(now);
    WeekBounds(other);
    if now - now % 7 <= other < now - now % 7 + 7 {
      WeekUnique(now, other);
    }
  }

  lemma MonthlyConstant(now: Day, other: Day)
    ensures var s := AccrualPeriodStart(now, Monthly);
      s <= other < PeriodEnd(s, Monthly) ==> AccrualPeriodStart(other, Monthly) == s
  {
    var c := CivilOf(now);
    MonthBounds(now);
    if MonthStart(c.year, c.month) <= other < MonthStart(c.year, c.month + 1) {
      MonthConstant(other, c.year, c.month);
    }
  }

  lemma YearConstant(now: Day, other: Day)
    ensures var s := AccrualPeriodStart(now, Yearly);
      s <= other < PeriodEnd(s, Yearly) ==> AccrualPeriodStart(other, Yearly) == s
  {
    YearBounds(now);
    YearBounds(other);
    if YearStart(YearOf(now)) <= other < YearStart(YearOf(now) + 1) {
      YearUnique(other, YearOf(now));
    }
  }

  /** Two dates share a period start exactly when one lies in the other's period. */
  lemma PeriodConstant(now: Day, other: Day, period: AccrualPeriod)
    requires !period.Unsupported?
    ensures var s := AccrualPeriodStart(now, period);
      AccrualPeriodStart(other, period) == s <==> s <= other < PeriodEnd(s, period)
  {
    var s := AccrualPeriodStart(now, period);
    PeriodBrackets(other, period);
    if s <= other < PeriodEnd(s, period) {
      match period
      case Weekly => WeekConstant(now, other);
      case Monthly => MonthlyConstant(now, other);
      case Yearly => YearConstant(now, other);
    }
  }

  lemma PeriodStartFixed(now: Day, period: AccrualPeriod)
    ensures var s := AccrualPeriodStart(now, period); AccrualPeriodStart(s, period) == s
  {
    if !period.Unsupported? {
      PeriodBrackets(now, period);
      PeriodConstant(now, AccrualPeriodStart(now, period), period);
    }
  }

  lemma PeriodStartMonotone(a: Day, b: Day, period: AccrualPeriod)
    requires a <= b
    ensures AccrualPeriodStart(a, period) <= AccrualPeriodStart(b, period)
  {
    if !period.Unsupported? {
      PeriodBrackets(a, period);
      PeriodBrackets(b, period);
      if AccrualPeriodStart(b, period) <= a {
        PeriodConstant(b, a, period);
      }
    }
  }

  /** The end of a period is the start of the next one, so periods neither overlap nor leave gaps. */
  lemma PeriodsTile(now: Day, period: AccrualPeriod)
    requires !period.Unsupported?
    ensures var e := PeriodEnd(AccrualPeriodStart(now, period), period); AccrualPeriodStart(e, period) == e
  {
    var e := PeriodEnd(AccrualPeriodStart(now, period), period);
    PeriodBrackets(now, period);
    PeriodBrackets(e, period);
    PeriodConstant(now, e - 1, period);
    PeriodConstant(e, e - 1, period);
    PeriodConstant(now, e, period);
  }

  // ---- The calendar everybody knows ------------------------------------------------------------

  /** Thirty days have September, April, June and November. */
  lemma MonthLengths(leap: bool, m: int)
    requires 1 <= m <= 12
    ensures DaysBefore(leap, m + 1) - DaysBefore(leap, m) ==
      if m == 2 then if leap then 29 else 28
      else if m in {4, 6, 9, 11} then 30 else 31
  {
  }

  /** 1 January of year 1 was a Monday, 1 January 1970 a Thursday; weekdays follow each other from
      Sunday, the zeroth. */
  lemma KnownDays(d: Day)
    ensures Date(1, 1, 1) == ZERO_TIME && Date(1970, 1, 1) == 719162
    ensures Weekday(ZERO_TIME) == 1 && Weekday(719162) == 4
    ensures 0 <= Weekday(d) <= 6 && Weekday(d + 1) == if Weekday(d) == 6 then 0 else Weekday(d) + 1
  {
  }

  lemma WeekOfMonday(now: Day)
    ensures Weekday(now - now % 7) == 1
  {
    assert now - now % 7 + 1 == 7 * (now / 7) + 1;
  }

  /** A weekly period starts on a Monday and lasts seven days. */
  lemma WeeksStartOnMonday(now: Day)
    ensures var start := AccrualPeriodStart(now, Weekly); Weekday(start) == 1 && PeriodEnd(start, Weekly) == start + 7
  {
    WeekBounds(now);
    WeekOfMonday(now);
  }

  lemma FirstOfMonth(y: int, m: int)
    requires 1 <= m <= 12
    ensures CivilOf(MonthStart(y, m)) == Civil(y, m, 1)
  {
    CivilUnique(Civil(y, m, 1));
  }

  lemma MonthThirteen(y: int)
    ensures MonthStart(y, 13) == MonthStart(y + 1, 1)
  {
    YearLength(y);
  }

  lemma FirstOfNextMonth(y: int, m: int)
    requires 1 <= m <= 12
    ensures CivilOf(MonthStart(y, m + 1)) == if m == 12 then Civil(y + 1, 1, 1) else Civil(y, m + 1, 1)
  {
    if m == 12 {
      MonthThirteen(y);
      FirstOfMonth(y + 1, 1);
    } else {
      FirstOfMonth(y, m + 1);
    }
  }

  /** A monthly period runs from the first of its month to the first of the next. */
  lemma MonthsStartOnFirst(now: Day)
    ensures var c, start := CivilOf(now), AccrualPeriodStart(now, Monthly);
      CivilOf(start) == Civil(c.year, c.month, 1)
      && CivilOf(PeriodEnd(start, Monthly))
         == if c.month == 12 then Civil(c.year + 1, 1, 1) else Civil(c.year, c.month + 1, 1)
  {
    MonthBounds(now);
    FirstOfMonth(CivilOf(now).year, CivilOf(now).month);
    FirstOfNextMonth(CivilOf(now).year, CivilOf(now).month);
  }

  lemma FirstOfYear(y: int)
    ensures CivilOf(YearStart(y)) == Civil(y, 1, 1)
  {
    assert MonthStart(y, 1) == YearStart(y);
    FirstOfMonth(y, 1);
  }

  /** A yearly period runs from one first of January to the next. */
  lemma YearsStartOnFirst(now: Day)
    ensures var y, start := CivilOf(now).year, AccrualPeriodStart(now, Yearly);
      CivilOf(start) == Civil(y, 1, 1) && CivilOf(PeriodEnd(start, Yearly)) == Civil(y + 1, 1, 1)
  {
    var y := YearOf(now);
    YearBounds(now);
    FirstOfYear(y);
    FirstOfYear(y + 1);
  }
}
